/**
 * Heading numbering and the table of contents (sphinx_pdf_generate/toc.py).
 *
 * The headings are the flat, in-order list that a search for h1..h6
 * returns; each carries what the passes read from it: its level, its id,
 * the id of its parent element, its child contents and its
 * `data-numbering` attribute.
 */
module Toc {
  import opened Wrappers
  import opened PyStr

  /** The level of an `h1` .. `h6` element. */
  type Level = l: int | 1 <= l <= 6 witness 1

  /** A piece of heading content: a string or an element with its own
      children. */
  datatype Content = Text(text: string) | Elem(name: string, attrs: map<string, string>, children: seq<Content>)

  datatype Heading = Heading(level: Level, id: Option<string>, parentId: Option<string>,
                             contents: seq<Content>, numbering: Option<string>)

  /** The options `make_toc` reads. */
  datatype TocOptions = TocOptions(toc: bool, tocOrdering: bool, tocLevel: int, tocTitle: string)

  /** Both passes do nothing unless `toc_level` lies in 1..6. */
  predicate LevelInRange(tocLevel: int) {
    1 <= tocLevel <= 6
  }

  function Levels(hs: seq<Heading>): (ls: seq<Level>)
    ensures |ls| == |hs| && forall j :: 0 <= j < |hs| ==> ls[j] == hs[j].level
  {
    seq(|hs|, j requires 0 <= j < |hs| => hs[j].level)
  }

  // ---------------------------------------------------------------------
  // _inject_heading_order
  // ---------------------------------------------------------------------

  /** Whether the numbering loop numbers a heading of level `l`: an h1
      always, a deeper heading only up to `toc_level`. */
  predicate Numbered(l: Level, tocLevel: int) {
    l == 1 || l <= tocLevel
  }

  /** The six counters h1n..h6n at the start. */
  const NoCounters: seq<nat> := [0, 0, 0, 0, 0, 0]

  /** A numbered heading of level `l` adds one to counter `l` and zeroes
      the deeper counters. */
  function Bump(c: seq<nat>, l: Level): (r: seq<nat>)
    requires |c| == 6
    ensures |r| == 6
  {
    seq(6, i requires 0 <= i < 6 => if i < l - 1 then c[i] else if i == l - 1 then c[i] + 1 else 0)
  }

  /** The six assignments of the loop body, one per heading level. */
  lemma BumpByLevel(c: seq<nat>)
    requires |c| == 6
    ensures Bump(c, 1) == [c[0] + 1, 0, 0, 0, 0, 0]
    ensures Bump(c, 2) == [c[0], c[1] + 1, 0, 0, 0, 0]
    ensures Bump(c, 3) == [c[0], c[1], c[2] + 1, 0, 0, 0]
    ensures Bump(c, 4) == [c[0], c[1], c[2], c[3] + 1, 0, 0]
    ensures Bump(c, 5) == [c[0], c[1], c[2], c[3], c[4] + 1, 0]
    ensures Bump(c, 6) == [c[0], c[1], c[2], c[3], c[4], c[5] + 1]
  {
  }

  /** The counters after the loop has seen the headings of levels `ls`. */
  function CountersAfter(ls: seq<Level>, tocLevel: int): (c: seq<nat>)
    ensures |c| == 6
  {
    if ls == [] then NoCounters
    else
      var c := CountersAfter(ls[..|ls| - 1], tocLevel);
      if Numbered(ls[|ls| - 1], tocLevel) then Bump(c, ls[|ls| - 1]) else c
  }

  /** The dotted number of the `j`-th heading: counters 1..l right after it. */
  function Number(ls: seq<Level>, j: nat, tocLevel: int): (n: seq<nat>)
    requires j < |ls|
    ensures |n| == ls[j]
  {
    CountersAfter(ls[..j + 1], tocLevel)[..ls[j]]
  }

  function Decimals(ns: seq<nat>): (r: seq<string>)
    ensures |r| == |ns| && forall i :: 0 <= i < |ns| ==> r[i] == NatToString(ns[i])
  {
    seq(|ns|, i requires 0 <= i < |ns| => NatToString(ns[i]))
  }

  /** The `data-numbering` text for a number: "1.2. " for [1, 2]. */
  function Prefix(n: seq<nat>): string {
    JoinWith(".", Decimals(n)) + ". "
  }

  /** The `data-numbering` the loop writes on the `j`-th heading, if any. */
  function PrefixAt(ls: seq<Level>, j: nat, tocLevel: int): Option<string>
    requires j < |ls|
  {
    if LevelInRange(tocLevel) && Numbered(ls[j], tocLevel) then Some(Prefix(Number(ls, j, tocLevel))) else None
  }

  /** The headings after `_inject_heading_order`. */
  function Numbering(hs: seq<Heading>, tocLevel: int): (r: seq<Heading>)
    ensures |r| == |hs|
  {
    var ls := Levels(hs);
    seq(|hs|, j requires 0 <= j < |hs| =>
      match PrefixAt(ls, j, tocLevel)
      case Some(p) => hs[j].(numbering := Some(p))
      case None => hs[j])
  }

  /** The counters after one more heading. */
  lemma CountersStep(ls: seq<Level>, j: nat, tocLevel: int)
    requires j < |ls|
    ensures CountersAfter(ls[..j + 1], tocLevel)
      == if Numbered(ls[j], tocLevel) then Bump(CountersAfter(ls[..j], tocLevel), ls[j]) else CountersAfter(ls[..j], tocLevel)
  {
    assert ls[..j + 1][..j] == ls[..j];
  }

  /** What the numbering leaves on the `j`-th heading. */
  lemma NumberingAt(hs: seq<Heading>, j: nat, tocLevel: int)
    requires j < |hs|
    ensures Numbering(hs, tocLevel)[j]
      == if LevelInRange(tocLevel) && Numbered(hs[j].level, tocLevel)
         then hs[j].(numbering := Some(Prefix(CountersAfter(Levels(hs)[..j + 1], tocLevel)[..hs[j].level])))
         else hs[j]
  {
  }

  /** `_inject_heading_order`: walks the headings with the six counters and
      writes the prefix on each numbered heading in place. */
  method InjectHeadingOrder(headings: array<Heading>, tocLevel: int)
    modifies headings
    ensures headings[..] == Numbering(old(headings[..]), tocLevel)
  {
    ghost var hs := headings[..];
    ghost var ls := Levels(hs);
    if tocLevel < 1 || tocLevel > 6 {
      NumberingOutOfRange(hs, tocLevel);
      return;
    }
    var c := NoCounters;
    for j := 0 to headings.Length
      invariant c == CountersAfter(ls[..j], tocLevel)
      invariant forall i :: 0 <= i < j ==> headings[i] == Numbering(hs, tocLevel)[i]
      invariant forall i :: j <= i < headings.Length ==> headings[i] == hs[i]
    {
      c := NumberHeading(headings, j, tocLevel, hs, c);
    }
  }

  /** The loop body: bumps the counters for heading `j` and writes its
      prefix when it is numbered. */
  method NumberHeading(headings: array<Heading>, j: nat, tocLevel: int, ghost hs: seq<Heading>, c: seq<nat>)
    returns (next: seq<nat>)
    requires LevelInRange(tocLevel) && j < headings.Length == |hs| && headings[j] == hs[j]
    requires c == CountersAfter(Levels(hs)[..j], tocLevel)
    modifies headings
    ensures next == CountersAfter(Levels(hs)[..j + 1], tocLevel)
    ensures headings[j] == Numbering(hs, tocLevel)[j]
    ensures forall i :: 0 <= i < headings.Length && i != j ==> headings[i] == old(headings[i])
  {
    NumberingStep(hs, j, tocLevel);
    var h := headings[j];
    var numbered;
    next, numbered := NextCounters(c, h.level, tocLevel);
    if numbered {
      headings[j] := h.(numbering := Some(Prefix(next[..h.level])));
    }
  }

  /** One turn of the loop: the counters after heading `j`, and what the
      numbering leaves on it. */
  lemma NumberingStep(hs: seq<Heading>, j: nat, tocLevel: int)
    requires j < |hs| && LevelInRange(tocLevel)
    ensures var c := CountersAfter(Levels(hs)[..j], tocLevel);
      var next := CountersAfter(Levels(hs)[..j + 1], tocLevel);
      && next == (if Numbered(hs[j].level, tocLevel) then Bump(c, hs[j].level) else c)
      && Numbering(hs, tocLevel)[j]
         == if Numbered(hs[j].level, tocLevel) then hs[j].(numbering := Some(Prefix(next[..hs[j].level]))) else hs[j]
  {
    CountersStep(Levels(hs), j, tocLevel);
    NumberingAt(hs, j, tocLevel);
  }

  /** The counter updates of the loop body, one branch per heading level. */
  method NextCounters(c: seq<nat>, l: Level, tocLevel: int) returns (next: seq<nat>, numbered: bool)
    requires |c| == 6
    ensures numbered == Numbered(l, tocLevel)
    ensures next == if numbered then Bump(c, l) else c
  {
    BumpByLevel(c);
    numbered := true;
    if l == 1 {
      next := [c[0] + 1, 0, 0, 0, 0, 0];
    } else if l == 2 && tocLevel >= 2 {
      next := [c[0], c[1] + 1, 0, 0, 0, 0];
    } else if l == 3 && tocLevel >= 3 {
      next := [c[0], c[1], c[2] + 1, 0, 0, 0];
    } else if l == 4 && tocLevel >= 4 {
      next := [c[0], c[1], c[2], c[3] + 1, 0, 0];
    } else if l == 5 && tocLevel >= 5 {
      next := [c[0], c[1], c[2], c[3], c[4] + 1, 0];
    } else if l == 6 && tocLevel >= 6 {
      next := [c[0], c[1], c[2], c[3], c[4], c[5] + 1];
    } else {
      next, numbered := c, false;
    }
  }

  /** The numbering of the example h1, h2, h2, h1, h2: 1, 1.1, 1.2, 2, 2.1. */
  lemma NumberingExample(tocLevel: int)
    requires 2 <= tocLevel <= 6
    ensures var ls: seq<Level> := [1, 2, 2, 1, 2];
      && Number(ls, 0, tocLevel) == [1] && Number(ls, 1, tocLevel) == [1, 1]
      && Number(ls, 2, tocLevel) == [1, 2] && Number(ls, 3, tocLevel) == [2]
      && Number(ls, 4, tocLevel) == [2, 1]
  {
    var ls: seq<Level> := [1, 2, 2, 1, 2];
    assert ls[..1] == [1] && ls[..2] == [1, 2] && ls[..3] == [1, 2, 2] && ls[..4] == [1, 2, 2, 1];
    assert CountersAfter(ls[..1], tocLevel) == [1, 0, 0, 0, 0, 0] by { BumpByLevel(NoCounters); }
    assert CountersAfter(ls[..2], tocLevel) == [1, 1, 0, 0, 0, 0] by { CountersStep(ls, 1, tocLevel); BumpByLevel([1, 0, 0, 0, 0, 0]); }
    assert CountersAfter(ls[..3], tocLevel) == [1, 2, 0, 0, 0, 0] by { CountersStep(ls, 2, tocLevel); BumpByLevel([1, 1, 0, 0, 0, 0]); }
    assert CountersAfter(ls[..4], tocLevel) == [2, 0, 0, 0, 0, 0] by { CountersStep(ls, 3, tocLevel); BumpByLevel([1, 2, 0, 0, 0, 0]); }
    assert CountersAfter(ls[..5], tocLevel) == [2, 1, 0, 0, 0, 0] by { CountersStep(ls, 4, tocLevel); BumpByLevel([2, 0, 0, 0, 0, 0]); }
  }

  /** Two examples of the text written: "1. ", "1.2. ", and "1.0.1. " for
      an h3 right after the first h1. */
  lemma PrefixExamples()
    ensures Prefix([1]) == "1. " && Prefix([1, 2]) == "1.2. " && Prefix([1, 0, 1]) == "1.0.1. "
  {
  }

  /** An h3 right after an h1, with no h2 between, is numbered 1.0.1. */
  lemma SkippedLevelShowsZero(tocLevel: int)
    requires 3 <= tocLevel <= 6
    ensures Number([1, 3], 1, tocLevel) == [1, 0, 1]
  {
    var ls: seq<Level> := [1, 3];
    assert ls[..1] == [1] && ls[..2] == ls;
    assert CountersAfter(ls[..1], tocLevel) == [1, 0, 0, 0, 0, 0] by { BumpByLevel(NoCounters); }
    CountersStep(ls, 1, tocLevel);
    BumpByLevel([1, 0, 0, 0, 0, 0]);
  }

  /** Outside 1..6 no heading changes; inside, the numbering touches only
      `data-numbering`, and exactly on the headings it numbers. */
  lemma NumberingTouches(hs: seq<Heading>, j: nat, tocLevel: int)
    requires j < |hs|
    ensures var h := Numbering(hs, tocLevel)[j];
      && h.(numbering := hs[j].numbering) == hs[j]
      && (h.numbering != hs[j].numbering ==> LevelInRange(tocLevel) && Numbered(hs[j].level, tocLevel))
      && (LevelInRange(tocLevel) && Numbered(hs[j].level, tocLevel) ==> h.numbering.Some?)
  {
    NumberingAt(hs, j, tocLevel);
  }

  lemma NumberingOutOfRange(hs: seq<Heading>, tocLevel: int)
    requires !LevelInRange(tocLevel)
    ensures Numbering(hs, tocLevel) == hs
  {
    forall j | 0 <= j < |hs|
      ensures Numbering(hs, tocLevel)[j] == hs[j]
    {
      NumberingAt(hs, j, tocLevel);
    }
  }

  /** How many numbered headings of level `l` the loop has seen since the
      last numbered heading shallower than `l`. */
  function Since(ls: seq<Level>, l: Level, tocLevel: int): nat {
    if ls == [] then 0
    else
      var n := Since(ls[..|ls| - 1], l, tocLevel);
      var last := ls[|ls| - 1];
      if !Numbered(last, tocLevel) || last > l then n
      else if last == l then n + 1
      else 0
  }

  /** Counter `l` counts the numbered level-`l` headings since the last
      numbered shallower one; deeper headings and unnumbered ones leave it
      alone. */
  lemma {:induction false} CountersCount(ls: seq<Level>, tocLevel: int)
    ensures forall l: Level :: CountersAfter(ls, tocLevel)[l - 1] == Since(ls, l, tocLevel)
  {
    if ls != [] {
      CountersCount(ls[..|ls| - 1], tocLevel);
    }
  }

  /** Right after a numbered heading of level `l` its own counter is at
      least one and every deeper counter is zero, so its number has `l`
      parts and ends in a positive one. */
  lemma NumberShape(ls: seq<Level>, j: nat, tocLevel: int)
    requires j < |ls| && Numbered(ls[j], tocLevel)
    ensures Number(ls, j, tocLevel)[ls[j] - 1] >= 1
    ensures CountersAfter(ls[..j + 1], tocLevel)[ls[j]..] == seq(6 - ls[j], _ => 0)
  {
    CountersStep(ls, j, tocLevel);
  }

  /** The numbered headings of level `m` among `ls`. */
  function CountLevel(ls: seq<Level>, m: int, tocLevel: int): nat {
    if ls == [] then 0
    else CountLevel(ls[..|ls| - 1], m, tocLevel) + if Numbered(ls[|ls| - 1], tocLevel) && ls[|ls| - 1] == m then 1 else 0
  }

  /** Every numbered heading of `ls` has level `m` or deeper. */
  predicate AllAtLeast(ls: seq<Level>, m: int, tocLevel: int) {
    forall i :: 0 <= i < |ls| && Numbered(ls[i], tocLevel) ==> ls[i] >= m
  }

  /** The shallowest numbered level in `ls`, or 7 when none is numbered. */
  function MinNumbered(ls: seq<Level>, tocLevel: int): (m: int)
    ensures 1 <= m <= 7
  {
    if ls == [] then 7
    else
      var m := MinNumbered(ls[..|ls| - 1], tocLevel);
      if Numbered(ls[|ls| - 1], tocLevel) && ls[|ls| - 1] < m then ls[|ls| - 1] else m
  }

  lemma {:induction false} MinNumberedFacts(ls: seq<Level>, tocLevel: int)
    ensures AllAtLeast(ls, MinNumbered(ls, tocLevel), tocLevel)
    ensures MinNumbered(ls, tocLevel) <= 6 ==> CountLevel(ls, MinNumbered(ls, tocLevel), tocLevel) >= 1
  {
    if ls != [] {
      var init := ls[..|ls| - 1];
      MinNumberedFacts(init, tocLevel);
      assert forall i :: 0 <= i < |init| ==> ls[i] == init[i];
    }
  }

  /** Headings no shallower than `m` only ever add to counter `m`. */
  lemma {:induction false} CounterGrowth(ls: seq<Level>, ext: seq<Level>, m: Level, tocLevel: int)
    requires AllAtLeast(ext, m, tocLevel)
    ensures CountersAfter(ls + ext, tocLevel)[m - 1] == CountersAfter(ls, tocLevel)[m - 1] + CountLevel(ext, m, tocLevel)
  {
    if ext != [] {
      var init := ext[..|ext| - 1];
      assert (ls + ext)[..|ls + ext| - 1] == ls + init;
      assert AllAtLeast(init, m, tocLevel) by {
        assert forall i :: 0 <= i < |init| ==> init[i] == ext[i];
      }
      CounterGrowth(ls, init, m, tocLevel);
    } else {
      assert ls + ext == ls;
    }
  }

  /** No two numbered headings get the same number. */
  lemma NumbersDistinct(ls: seq<Level>, j: nat, k: nat, tocLevel: int)
    requires j < k < |ls| && Numbered(ls[j], tocLevel) && Numbered(ls[k], tocLevel)
    ensures Number(ls, j, tocLevel) != Number(ls, k, tocLevel)
  {
    if ls[j] == ls[k] {
      var ext := ls[j + 1..k + 1];
      assert ls[..k + 1] == ls[..j + 1] + ext;
      MinNumberedFacts(ext, tocLevel);
      var m := MinNumbered(ext, tocLevel);
      assert ext[|ext| - 1] == ls[k];
      CounterGrowth(ls[..j + 1], ext, m, tocLevel);
      assert Number(ls, j, tocLevel)[m - 1] < Number(ls, k, tocLevel)[m - 1];
    }
  }

  // ---------------------------------------------------------------------
  // makelink and _clone_element
  // ---------------------------------------------------------------------

  /** Why building the table of contents stops: an h2 before any h1 finds
      no h1 entry to hang its list on, and a heading's `<a>` child must
      start with a string for its text to be taken. */
  datatype TocError = NoOpenH1 | AnchorWithoutText

  /** A link of the table of contents, `<a href=... data-numbering=...>`
      with its contents. */
  datatype Link = Link(href: string, numbering: Option<string>, text: seq<Content>)

  /** `_clone_element`: a deep copy, which as a value is the original. */
  function Clone(c: Content): (r: Content)
    ensures r == c
    decreases c
  {
    match c
    case Text(s) => Text(s)
    case Elem(name, attrs, children) =>
      var copies := seq(|children|, i requires 0 <= i < |children| => Clone(children[i]));
      assert copies == children;
      Elem(name, attrs, copies)
  }

  /** What one child of a heading contributes to the link: an `<a>` gives
      its first string without the pilcrow, anything else a copy of
      itself. */
  function LinkPiece(el: Content): Result<Content, TocError> {
    if el.Elem? && el.name == "a" then
      if |el.children| > 0 && el.children[0].Text? then Ok(Text(ReplaceAll(el.children[0].text, "\U{B6}", "")))
      else Err(AnchorWithoutText)
    else Ok(Clone(el))
  }

  function LinkText(contents: seq<Content>): Result<seq<Content>, TocError> {
    if contents == [] then Ok([])
    else match LinkText(contents[..|contents| - 1])
      case Err(e) => Err(e)
      case Ok(text) =>
        match LinkPiece(contents[|contents| - 1])
        case Err(e) => Err(e)
        case Ok(piece) => Ok(text + [piece])
  }

  /** The link target: the heading's id, or its parent's when the heading
      has none or an empty one; a parent without id gives "None". */
  function Ref(h: Heading): string {
    if h.id.Some? && h.id.value != "" then h.id.value
    else if h.parentId.Some? then h.parentId.value
    else "None"
  }

  /** The link `makelink` builds for a heading. */
  function LinkOf(h: Heading): Result<Link, TocError> {
    match LinkText(h.contents)
    case Err(e) => Err(e)
    case Ok(text) => Ok(Link("#" + Ref(h), h.numbering, text))
  }

  lemma LinkTextStep(contents: seq<Content>, i: nat)
    requires i < |contents|
    ensures LinkText(contents[..i + 1]) == match LinkText(contents[..i])
      case Err(e) => Err(e)
      case Ok(text) => (match LinkPiece(contents[i]) case Err(e) => Err(e) case Ok(piece) => Ok(text + [piece]))
  {
    assert contents[..i + 1][..i] == contents[..i];
  }

  lemma {:induction false} LinkTextErrSticks(contents: seq<Content>, i: nat)
    requires i <= |contents| && LinkText(contents[..i]).Err?
    ensures LinkText(contents) == LinkText(contents[..i])
    decreases |contents| - i
  {
    if i < |contents| {
      LinkTextStep(contents, i);
      LinkTextErrSticks(contents, i + 1);
    } else {
      assert contents[..i] == contents;
    }
  }

  /** `makelink`: the target, the number and the text, child by child. */
  method MakeLink(h: Heading) returns (r: Result<Link, TocError>)
    ensures r == LinkOf(h)
  {
    var ref := if h.id.Some? then h.id.value else "";
    if ref == "" {
      ref := if h.parentId.Some? then h.parentId.value else "None";
    }
    var text: seq<Content> := [];
    for i := 0 to |h.contents|
      invariant LinkText(h.contents[..i]) == Ok(text)
    {
      LinkTextStep(h.contents, i);
      var piece := LinkPiece(h.contents[i]);
      if piece.Err? {
        LinkTextErrSticks(h.contents, i + 1);
        return Err(piece.error);
      }
      text := text + [piece.value];
    }
    assert h.contents[..|h.contents|] == h.contents;
    r := Ok(Link("#" + ref, h.numbering, text));
  }

  /** The link text keeps every child but an `<a>` as it is, and an `<a>`
      becomes its first string with every pilcrow removed; it fails exactly
      when some `<a>` child does not start with a string. */
  lemma {:induction false} LinkTextShape(contents: seq<Content>)
    ensures LinkText(contents).Ok? <==>
      forall i :: 0 <= i < |contents| ==> LinkPiece(contents[i]).Ok?
    ensures LinkText(contents).Ok? ==> |LinkText(contents).value| == |contents|
    ensures LinkText(contents).Ok? ==>
      forall i :: 0 <= i < |contents| ==> LinkText(contents).value[i] == LinkPiece(contents[i]).value
  {
    if contents != [] {
      var init := contents[..|contents| - 1];
      LinkTextShape(init);
      assert forall i :: 0 <= i < |init| ==> init[i] == contents[i];
    }
  }

  lemma LinkPieceShape(el: Content)
    ensures !(el.Elem? && el.name == "a") ==> LinkPiece(el) == Ok(el)
    ensures el.Elem? && el.name == "a" && LinkPiece(el).Ok? ==>
      && LinkPiece(el).value.Text?
      && |el.children| > 0 && el.children[0].Text?
      && '\U{B6}' !in LinkPiece(el).value.text
  {
    if el.Elem? && el.name == "a" && LinkPiece(el).Ok? {
      ReplaceRemovesChar(el.children[0].text, '\U{B6}', "");
    }
  }

  /** The target is "#" and the heading's own id whenever it has a
      non-empty one; the number travels with the link. */
  lemma LinkOfShape(h: Heading)
    ensures LinkOf(h).Ok? <==> LinkText(h.contents).Ok?
    ensures LinkOf(h).Ok? ==> LinkOf(h).value.numbering == h.numbering && StartsWith(LinkOf(h).value.href, "#")
    ensures LinkOf(h).Ok? && h.id.Some? && h.id.value != "" ==> LinkOf(h).value.href == "#" + h.id.value
    ensures LinkOf(h).Ok? && (h.id.None? || h.id.value == "") ==>
      LinkOf(h).value.href == "#" + (if h.parentId.Some? then h.parentId.value else "None")
  {
  }

  // ---------------------------------------------------------------------
  // _make_indexes: which headings enter the table, and at what depth
  // ---------------------------------------------------------------------

  /** A heading that made it into the table, at the depth of its level. */
  datatype Entry = Entry(depth: nat, link: Link)

  /** The entries so far, and how many of the cursors h1li..h6li are set:
      cursor `d` holds the last entry of depth `d`, for `d` up to `depth`. */
  datatype ScanState = ScanState(entries: seq<Entry>, depth: nat)

  function LastDepth(es: seq<Entry>): nat {
    if es == [] then 0 else es[|es| - 1].depth
  }

  /** The nesting invariant: the table starts at depth 1 and never goes
      more than one level deeper than the entry before. */
  predicate Nested(es: seq<Entry>) {
    && (forall i :: 0 <= i < |es| ==> 1 <= es[i].depth)
    && (|es| > 0 ==> es[0].depth == 1)
    && (forall i :: 0 < i < |es| ==> es[i].depth <= es[i - 1].depth + 1)
  }

  function AddEntry(s: ScanState, h: Heading): Result<ScanState, TocError> {
    match LinkOf(h)
    case Err(e) => Err(e)
    case Ok(link) => Ok(ScanState(s.entries + [Entry(h.level, link)], h.level))
  }

  /** One turn of the loop over the headings. */
  function ScanStep(s: ScanState, h: Heading, tocLevel: int): Result<ScanState, TocError> {
    var l := h.level;
    if l == 1 then AddEntry(s, h)
    else if l == 2 && tocLevel >= 2 then
      if s.depth == 0 then Err(NoOpenH1) else AddEntry(s, h)
    else if l <= tocLevel then
      if s.depth < l - 1 then Ok(s) else AddEntry(s, h)
    else Ok(s)
  }

  /** The entries the loop produces for the headings `hs`. */
  function Scan(hs: seq<Heading>, tocLevel: int): (r: Result<ScanState, TocError>)
    requires LevelInRange(tocLevel)
    ensures r.Ok? ==> Nested(r.value.entries) && r.value.depth == LastDepth(r.value.entries)
    ensures r.Ok? ==> forall i :: 0 <= i < |r.value.entries| ==> r.value.entries[i].depth <= tocLevel
  {
    if hs == [] then Ok(ScanState([], 0))
    else match Scan(hs[..|hs| - 1], tocLevel)
      case Err(e) => Err(e)
      case Ok(s) =>
        ScanStepKeepsNested(s, hs[|hs| - 1], tocLevel);
        ScanStep(s, hs[|hs| - 1], tocLevel)
  }

  /** The state the scan keeps: nested entries, no deeper than `tocLevel`,
      and as many cursors set as the depth of the last entry. */
  predicate ScanInvariant(s: ScanState, tocLevel: int) {
    && Nested(s.entries) && s.depth == LastDepth(s.entries)
    && (forall i :: 0 <= i < |s.entries| ==> s.entries[i].depth <= tocLevel)
  }

  /** One turn of the loop keeps the scan's state. */
  lemma ScanStepKeepsNested(s: ScanState, h: Heading, tocLevel: int)
    requires LevelInRange(tocLevel) && ScanInvariant(s, tocLevel)
    ensures ScanStep(s, h, tocLevel).Ok? ==> ScanInvariant(ScanStep(s, h, tocLevel).value, tocLevel)
  {
    var r := ScanStep(s, h, tocLevel);
    if r.Ok? && r.value != s {
      var es := r.value.entries;
      assert es[..|es| - 1] == s.entries && es[|es| - 1].depth == h.level;
      assert forall i :: 0 <= i < |es| - 1 ==> es[i] == s.entries[i];
    }
  }

  lemma ScanStepAt(hs: seq<Heading>, k: nat, tocLevel: int)
    requires k < |hs| && LevelInRange(tocLevel)
    ensures Scan(hs[..k], tocLevel).Err? ==> Scan(hs[..k + 1], tocLevel) == Scan(hs[..k], tocLevel)
    ensures Scan(hs[..k], tocLevel).Ok? ==> Scan(hs[..k + 1], tocLevel) == ScanStep(Scan(hs[..k], tocLevel).value, hs[k], tocLevel)
  {
    assert hs[..k + 1][..k] == hs[..k];
  }

  lemma {:induction false} ScanErrSticks(hs: seq<Heading>, k: nat, tocLevel: int)
    requires k <= |hs| && LevelInRange(tocLevel) && Scan(hs[..k], tocLevel).Err?
    ensures Scan(hs, tocLevel) == Scan(hs[..k], tocLevel)
    decreases |hs| - k
  {
    if k < |hs| {
      ScanStepAt(hs, k, tocLevel);
      ScanErrSticks(hs, k + 1, tocLevel);
    } else {
      assert hs[..k] == hs;
    }
  }

  // ---------------------------------------------------------------------
  // The tree of lists
  // ---------------------------------------------------------------------

  /** An `li` of the table: its link, and the entries of the `ul` below it
      (no `ul` at all when empty). */
  datatype Item = Item(link: Link, sub: seq<Item>)

  /** How deep the last-item path of a list goes: the cursors of the loop
      always point along this path. */
  function SpineDepth(items: seq<Item>): nat
    decreases items
  {
    if items == [] then 0 else 1 + SpineDepth(items[|items| - 1].sub)
  }

  /** Appending an `li` to the list of the cursor at depth `d - 1`, which
      is the last item at that depth. */
  function AppendAt(items: seq<Item>, d: nat, x: Item): seq<Item>
    requires 1 <= d <= SpineDepth(items) + 1
    decreases items
  {
    if d == 1 then items + [x]
    else
      var last := items[|items| - 1];
      items[..|items| - 1] + [Item(last.link, AppendAt(last.sub, d - 1, x))]
  }

  /** The entries of a list read back in document order, the top level at
      depth `base`. */
  function Flat(items: seq<Item>, base: nat): seq<Entry>
    decreases items
  {
    if items == [] then []
    else
      var last := items[|items| - 1];
      Flat(items[..|items| - 1], base) + [Entry(base, last.link)] + Flat(last.sub, base + 1)
  }

  /** Appending a fresh `li` at depth `d` adds exactly one entry, at the end
      and at that depth, and moves the cursor path to it. */
  lemma AppendAtFacts(items: seq<Item>, d: nat, link: Link, base: nat)
    requires 1 <= d <= SpineDepth(items) + 1
    ensures SpineDepth(AppendAt(items, d, Item(link, []))) == d
    ensures Flat(AppendAt(items, d, Item(link, [])), base) == Flat(items, base) + [Entry(base + d - 1, link)]
  {
    AppendAtSpine(items, d, link);
    AppendAtFlat(items, d, link, base);
  }

  lemma {:induction false} AppendAtFlat(items: seq<Item>, d: nat, link: Link, base: nat)
    requires 1 <= d <= SpineDepth(items) + 1
    ensures Flat(AppendAt(items, d, Item(link, [])), base) == Flat(items, base) + [Entry(base + d - 1, link)]
    decreases items, 1
  {
    var x := Item(link, []);
    if d == 1 {
      assert AppendAt(items, d, x) == items + [x];
      FlatSnoc(items, x, base);
      assert Flat(x.sub, base + 1) == [];
    } else {
      AppendBelowLast(items, d, link, base);
    }
  }

  lemma {:induction false} AppendBelowLast(items: seq<Item>, d: nat, link: Link, base: nat)
    requires 2 <= d <= SpineDepth(items) + 1
    ensures Flat(AppendAt(items, d, Item(link, [])), base) == Flat(items, base) + [Entry(base + d - 1, link)]
    decreases items, 0
  {
    var last := items[|items| - 1];
    AppendAtFlat(last.sub, d - 1, link, base + 1);
    FlatReplaceLast(items, AppendAt(last.sub, d - 1, Item(link, [])), [Entry(base + d - 1, link)], base);
  }

  /** Replacing the sub-list of the last item by one whose entries gain `e`
      at the end makes the whole list's entries gain `e` at the end. */
  lemma FlatReplaceLast(items: seq<Item>, sub: seq<Item>, e: seq<Entry>, base: nat)
    requires items != [] && Flat(sub, base + 1) == Flat(items[|items| - 1].sub, base + 1) + e
    ensures Flat(items[..|items| - 1] + [Item(items[|items| - 1].link, sub)], base) == Flat(items, base) + e
  {
    var init, last := items[..|items| - 1], items[|items| - 1];
    FlatSnoc(init, Item(last.link, sub), base);
    var a := Flat(init, base) + [Entry(base, last.link)];
    assert a + (Flat(last.sub, base + 1) + e) == (a + Flat(last.sub, base + 1)) + e;
  }

  lemma {:induction false} AppendAtSpine(items: seq<Item>, d: nat, link: Link)
    requires 1 <= d <= SpineDepth(items) + 1
    ensures SpineDepth(AppendAt(items, d, Item(link, []))) == d
    decreases items
  {
    var r := AppendAt(items, d, Item(link, []));
    if d > 1 {
      AppendAtSpine(items[|items| - 1].sub, d - 1, link);
    }
    assert r[|r| - 1] == if d == 1 then Item(link, []) else Item(items[|items| - 1].link, AppendAt(items[|items| - 1].sub, d - 1, Item(link, [])));
  }

  /** The entries of a list whose last item is `it`. */
  lemma FlatSnoc(init: seq<Item>, it: Item, base: nat)
    ensures Flat(init + [it], base) == Flat(init, base) + [Entry(base, it.link)] + Flat(it.sub, base + 1)
  {
    assert (init + [it])[..|init|] == init;
  }

  lemma NestedPrefix(es: seq<Entry>, n: nat)
    requires Nested(es) && n <= |es|
    ensures Nested(es[..n])
  {
    var p := es[..n];
    forall i | 0 < i < |p|
      ensures p[i].depth <= p[i - 1].depth + 1
    {
      assert p[i] == es[i] && p[i - 1] == es[i - 1];
    }
  }

  /** The last entry sits at most one level below the one before it. */
  lemma NestedLast(es: seq<Entry>)
    requires Nested(es) && es != []
    ensures 1 <= es[|es| - 1].depth <= LastDepth(es[..|es| - 1]) + 1
  {
    var n := |es| - 1;
    if n > 0 {
      assert es[..n][n - 1] == es[n - 1];
    }
  }

  /** The tree the loop builds from the entries. */
  function Tree(es: seq<Entry>): (r: seq<Item>)
    requires Nested(es)
    ensures SpineDepth(r) == LastDepth(es)
  {
    if es == [] then []
    else
      var e := es[|es| - 1];
      NestedPrefix(es, |es| - 1);
      NestedLast(es);
      var t := Tree(es[..|es| - 1]);
      AppendAtFacts(t, e.depth, e.link, 1);
      AppendAt(t, e.depth, Item(e.link, []))
  }

  /** Reading the tree back in document order gives the entries, each at
      its own depth: the tree nests every entry under the last entry one
      level up. */
  lemma {:induction false} TreeFlat(es: seq<Entry>)
    requires Nested(es)
    ensures Flat(Tree(es), 1) == es
  {
    if es != [] {
      NestedPrefix(es, |es| - 1);
      TreeFlat(es[..|es| - 1]);
      TreeFlatStep(es);
    }
  }

  lemma {:induction false} TreeFlatStep(es: seq<Entry>)
    requires Nested(es) && es != [] && Nested(es[..|es| - 1]) && Flat(Tree(es[..|es| - 1]), 1) == es[..|es| - 1]
    ensures Flat(Tree(es), 1) == es
  {
    var init := es[..|es| - 1];
    var e := es[|es| - 1];
    assert init + [e] == es;
    TreeStep(init, e);
    FlatAfterAppend(Tree(init), init, e);
  }

  /** Appending the item of entry `e` to a tree that reads back as `init`
      gives a tree that reads back as `init + [e]`. */
  lemma FlatAfterAppend(t: seq<Item>, init: seq<Entry>, e: Entry)
    requires 1 <= e.depth <= SpineDepth(t) + 1 && Flat(t, 1) == init
    ensures Flat(AppendAt(t, e.depth, Item(e.link, [])), 1) == init + [e]
  {
    AppendAtFacts(t, e.depth, e.link, 1);
    assert Entry(e.depth, e.link) == e;
  }

  /** The tree after one more entry. */
  lemma TreeStep(es: seq<Entry>, e: Entry)
    requires Nested(es + [e])
    ensures Nested(es) && 1 <= e.depth <= SpineDepth(Tree(es)) + 1
    ensures Tree(es + [e]) == AppendAt(Tree(es), e.depth, Item(e.link, []))
  {
    assert (es + [e])[..|es|] == es;
    NestedPrefix(es + [e], |es|);
    NestedLast(es + [e]);
  }

  /** The loop of `_make_indexes`. The cursors h1li..h6li and h2ul..h6ul
      always point at the last item of each depth, along the last-item path
      of the tree, so the loop keeps the tree and how many cursors are set. */
  method CollectToc(headings: seq<Heading>, tocLevel: int) returns (r: Result<seq<Item>, TocError>)
    requires LevelInRange(tocLevel)
    ensures r.Ok? <==> Scan(headings, tocLevel).Ok?
    ensures r.Ok? ==> r.value == Tree(Scan(headings, tocLevel).value.entries)
    ensures r.Err? ==> r == Err(Scan(headings, tocLevel).error)
  {
    var toc: seq<Item> := [];
    var depth := 0;
    for k := 0 to |headings|
      invariant Scan(headings[..k], tocLevel).Ok?
      invariant depth == Scan(headings[..k], tocLevel).value.depth
      invariant toc == Tree(Scan(headings[..k], tocLevel).value.entries)
    {
      ScanStepAt(headings, k, tocLevel);
      ghost var es := Scan(headings[..k], tocLevel).value.entries;
      var h := headings[k];
      var l := h.level;
      if l == 1 {
        var link := MakeLink(h);
        if link.Err? {
          ScanErrSticks(headings, k + 1, tocLevel);
          return Err(link.error);
        }
        TreeStep(es, Entry(1, link.value));
        toc := toc + [Item(link.value, [])];
        depth := 1;
      } else if l == 2 && tocLevel >= 2 {
        if depth == 0 {
          ScanErrSticks(headings, k + 1, tocLevel);
          return Err(NoOpenH1);
        }
        var link := MakeLink(h);
        if link.Err? {
          ScanErrSticks(headings, k + 1, tocLevel);
          return Err(link.error);
        }
        TreeStep(es, Entry(2, link.value));
        toc := AppendAt(toc, 2, Item(link.value, []));
        depth := 2;
      } else if l <= tocLevel {
        // h3..h6: left out unless the cursor one level up is set
        if depth < l - 1 {
          continue;
        }
        var link := MakeLink(h);
        if link.Err? {
          ScanErrSticks(headings, k + 1, tocLevel);
          return Err(link.error);
        }
        TreeStep(es, Entry(l, link.value));
        toc := AppendAt(toc, l, Item(link.value, []));
        depth := l;
      }
    }
    assert headings[..|headings|] == headings;
    r := Ok(toc);
  }

  // ---------------------------------------------------------------------
  // What the table contains
  // ---------------------------------------------------------------------

  /** The h1 headings, in document order. */
  function H1s(hs: seq<Heading>): (r: seq<Heading>)
    ensures forall i :: 0 <= i < |r| ==> r[i].level == 1
  {
    if hs == [] then []
    else H1s(hs[..|hs| - 1]) + if hs[|hs| - 1].level == 1 then [hs[|hs| - 1]] else []
  }

  function TopLinks(items: seq<Item>): (r: seq<Link>)
    ensures |r| == |items| && forall i :: 0 <= i < |items| ==> r[i] == items[i].link
  {
    seq(|items|, i requires 0 <= i < |items| => items[i].link)
  }

  /** A new `li` at depth one is a new top-level item; a deeper one leaves
      the top level alone. */
  lemma AppendAtTop(items: seq<Item>, d: nat, x: Item)
    requires 1 <= d <= SpineDepth(items) + 1
    ensures TopLinks(AppendAt(items, d, x)) == if d == 1 then TopLinks(items) + [x.link] else TopLinks(items)
  {
  }

  /** The three outcomes of one turn: the heading enters the table at the
      depth of its level, the h2-before-h1 failure (or a bad link text), or
      the heading is left out. */
  lemma ScanStepShape(s: ScanState, h: Heading, tocLevel: int)
    ensures var r := ScanStep(s, h, tocLevel);
      r.Ok? ==>
        ((r.value == s && h.level != 1)
         || (LinkOf(h).Ok? && r.value == ScanState(s.entries + [Entry(h.level, LinkOf(h).value)], h.level)
             && (h.level <= 2 || s.depth >= h.level - 1)))
    ensures 3 <= h.level <= tocLevel ==> (ScanStep(s, h, tocLevel) == Ok(s) <==> s.depth < h.level - 1)
  {
    var r := ScanStep(s, h, tocLevel);
    if 3 <= h.level <= tocLevel && s.depth >= h.level - 1 && LinkOf(h).Ok? {
      assert |r.value.entries| == |s.entries| + 1;
    }
  }

  /** The top level of the table lists the links of `h1s`, in order. */
  predicate TopMatches(es: seq<Entry>, h1s: seq<Heading>)
    requires Nested(es)
  {
    var top := TopLinks(Tree(es));
    |top| == |h1s| && forall i :: 0 <= i < |top| ==> LinkOf(h1s[i]) == Ok(top[i])
  }

  lemma TopMatchesStep(es: seq<Entry>, e: Entry, h1s: seq<Heading>, h: Heading)
    requires Nested(es + [e]) && Nested(es) && TopMatches(es, h1s)
    requires e.depth == h.level && LinkOf(h) == Ok(e.link)
    ensures TopMatches(es + [e], h1s + if h.level == 1 then [h] else [])
  {
    TreeStep(es, e);
    AppendAtTop(Tree(es), e.depth, Item(e.link, []));
  }

  /** Every h1 becomes a top-level item, in document order, and nothing
      else does. */
  lemma {:induction false} TocTopLevel(hs: seq<Heading>, tocLevel: int)
    requires LevelInRange(tocLevel) && Scan(hs, tocLevel).Ok?
    ensures TopMatches(Scan(hs, tocLevel).value.entries, H1s(hs))
  {
    if hs != [] {
      var n := |hs| - 1;
      var h := hs[n];
      ScanStepAt(hs, n, tocLevel);
      assert hs[..n + 1] == hs;
      TocTopLevel(hs[..n], tocLevel);
      var s := Scan(hs[..n], tocLevel).value;
      ScanStepShape(s, h, tocLevel);
      assert H1s(hs) == H1s(hs[..n]) + if h.level == 1 then [h] else [];
      if Scan(hs, tocLevel).value != s {
        TopMatchesStep(s.entries, Entry(h.level, LinkOf(h).value), H1s(hs[..n]), h);
      }
    }
  }

  /** Some h2 comes before every h1 (and h2 is within `toc_level`). */
  predicate H2BeforeH1(hs: seq<Heading>, tocLevel: int) {
    tocLevel >= 2 && exists j :: 0 <= j < |hs| && hs[j].level == 2 && forall i :: 0 <= i < j ==> hs[i].level != 1
  }

  predicate NoH1(hs: seq<Heading>) {
    forall i :: 0 <= i < |hs| ==> hs[i].level != 1
  }

  lemma H2BeforeH1Snoc(hs: seq<Heading>, h: Heading, tocLevel: int)
    ensures H2BeforeH1(hs + [h], tocLevel) <==> H2BeforeH1(hs, tocLevel) || (tocLevel >= 2 && h.level == 2 && NoH1(hs))
    ensures NoH1(hs + [h]) <==> NoH1(hs) && h.level != 1
  {
    var hs' := hs + [h];
    assert forall i :: 0 <= i < |hs| ==> hs'[i] == hs[i];
    if H2BeforeH1(hs', tocLevel) {
      var j :| 0 <= j < |hs'| && hs'[j].level == 2 && forall i :: 0 <= i < j ==> hs'[i].level != 1;
      if j < |hs| {
        assert hs[j].level == 2 && forall i :: 0 <= i < j ==> hs[i].level != 1;
      }
    }
    if H2BeforeH1(hs, tocLevel) {
      var j :| 0 <= j < |hs| && hs[j].level == 2 && forall i :: 0 <= i < j ==> hs[i].level != 1;
      assert hs'[j].level == 2 && forall i :: 0 <= i < j ==> hs'[i].level != 1;
    }
    if tocLevel >= 2 && h.level == 2 && NoH1(hs) {
      assert hs'[|hs|].level == 2 && forall i :: 0 <= i < |hs| ==> hs'[i].level != 1;
    }
    if !NoH1(hs) {
      var i :| 0 <= i < |hs| && hs[i].level == 1;
      assert hs'[i].level == 1;
    }
    if h.level == 1 {
      assert hs'[|hs|].level == 1;
    }
  }

  /** The cursor state and the failure after one more heading. */
  lemma ScanFailsStep(s: ScanState, h: Heading, tocLevel: int, noH1: bool)
    requires LinkOf(h).Ok? && LevelInRange(tocLevel)
    requires s.depth == 0 <==> noH1
    ensures var r := ScanStep(s, h, tocLevel);
      && (r.Err? <==> tocLevel >= 2 && h.level == 2 && noH1)
      && (r.Ok? ==> (r.value.depth == 0 <==> noH1 && h.level != 1))
  {
    ScanStepShape(s, h, tocLevel);
  }

  /** With well-formed link texts, building the table fails exactly when an
      h2 comes before the first h1; no cursor is set before the first h1. */
  lemma {:induction false} ScanFailsOnH2BeforeH1(hs: seq<Heading>, tocLevel: int)
    requires LevelInRange(tocLevel) && forall j :: 0 <= j < |hs| ==> LinkOf(hs[j]).Ok?
    ensures Scan(hs, tocLevel).Ok? <==> !H2BeforeH1(hs, tocLevel)
    ensures Scan(hs, tocLevel).Ok? ==> (Scan(hs, tocLevel).value.depth == 0 <==> NoH1(hs))
  {
    if hs != [] {
      var n := |hs| - 1;
      var init := hs[..n];
      var h := hs[n];
      assert forall i :: 0 <= i < n ==> init[i] == hs[i];
      ScanFailsOnH2BeforeH1(init, tocLevel);
      ScanStepAt(hs, n, tocLevel);
      assert init + [h] == hs;
      H2BeforeH1Snoc(init, h, tocLevel);
      if Scan(init, tocLevel).Ok? {
        ScanFailsStep(Scan(init, tocLevel).value, h, tocLevel, NoH1(init));
      }
    }
  }

  /** The cursor at depth `L` is never set while no heading of level `L`
      has been seen. */
  lemma {:induction false} DepthBelowMissingLevel(hs: seq<Heading>, L: int, tocLevel: int)
    requires LevelInRange(tocLevel) && Scan(hs, tocLevel).Ok? && L >= 2
    requires forall i :: 0 <= i < |hs| ==> hs[i].level != L
    ensures Scan(hs, tocLevel).value.depth < L
  {
    if hs != [] {
      var n := |hs| - 1;
      ScanStepAt(hs, n, tocLevel);
      assert hs[..n + 1] == hs;
      assert forall i :: 0 <= i < n ==> hs[..n][i] == hs[i];
      DepthBelowMissingLevel(hs[..n], L, tocLevel);
      ScanStepShape(Scan(hs[..n], tocLevel).value, hs[n], tocLevel);
    }
  }

  /** An h3..h6 with no heading one level up before it is left out of the
      table, and so is any heading deeper than `toc_level`. */
  lemma OrphanLeftOut(hs: seq<Heading>, h: Heading, tocLevel: int)
    requires LevelInRange(tocLevel) && Scan(hs, tocLevel).Ok?
    requires h.level > tocLevel || (h.level >= 3 && forall i :: 0 <= i < |hs| ==> hs[i].level != h.level - 1)
    ensures Scan(hs + [h], tocLevel) == Scan(hs, tocLevel)
  {
    assert (hs + [h])[..|hs|] == hs;
    if h.level <= tocLevel {
      DepthBelowMissingLevel(hs, h.level - 1, tocLevel);
    }
  }

  /** Both directions of the orphan rule: an h3..h6 within `toc_level`
      whose link text is well formed enters the table exactly when the
      entry one level up is still open, that is when the last entry is at
      least that deep (no shallower heading has reset the cursor since);
      otherwise it is left out. */
  lemma ParentCursorDecides(hs: seq<Heading>, h: Heading, tocLevel: int)
    requires LevelInRange(tocLevel) && Scan(hs, tocLevel).Ok?
    requires 3 <= h.level <= tocLevel && LinkOf(h).Ok?
    ensures var es := Scan(hs, tocLevel).value.entries;
      LastDepth(es) >= h.level - 1 ==>
        Scan(hs + [h], tocLevel).Ok? && Scan(hs + [h], tocLevel).value.entries == es + [Entry(h.level, LinkOf(h).value)]
    ensures LastDepth(Scan(hs, tocLevel).value.entries) < h.level - 1 ==> Scan(hs + [h], tocLevel) == Scan(hs, tocLevel)
  {
    assert (hs + [h])[..|hs|] == hs;
  }

  /** No entry is made up: each is the link of a heading of its depth's
      level. */
  lemma {:induction false} EntriesFromHeadings(hs: seq<Heading>, tocLevel: int)
    requires LevelInRange(tocLevel) && Scan(hs, tocLevel).Ok?
    ensures FromHeadings(Scan(hs, tocLevel).value.entries, hs)
  {
    if hs != [] {
      var n := |hs| - 1;
      ScanStepAt(hs, n, tocLevel);
      assert hs[..n + 1] == hs;
      EntriesFromHeadings(hs[..n], tocLevel);
      var s := Scan(hs[..n], tocLevel).value;
      ScanStepShape(s, hs[n], tocLevel);
      FromHeadingsStep(s.entries, Scan(hs, tocLevel).value.entries, hs);
    }
  }

  /** `e` is the entry the heading `h` makes. */
  predicate EntryOf(h: Heading, e: Entry) {
    h.level == e.depth && LinkOf(h) == Ok(e.link)
  }

  /** Some heading of `hs` makes the entry `e`. */
  predicate MadeBy(hs: seq<Heading>, e: Entry) {
    exists j :: 0 <= j < |hs| && EntryOf(hs[j], e)
  }

  predicate FromHeadings(es: seq<Entry>, hs: seq<Heading>) {
    forall k :: 0 <= k < |es| ==> MadeBy(hs, es[k])
  }

  lemma FromHeadingsStep(es: seq<Entry>, more: seq<Entry>, hs: seq<Heading>)
    requires hs != [] && FromHeadings(es, hs[..|hs| - 1])
    requires more == es || (LinkOf(hs[|hs| - 1]).Ok? && more == es + [Entry(hs[|hs| - 1].level, LinkOf(hs[|hs| - 1]).value)])
    ensures FromHeadings(more, hs)
  {
    var n := |hs| - 1;
    forall k | 0 <= k < |more|
      ensures MadeBy(hs, more[k])
    {
      if k < |es| {
        assert MadeBy(hs[..n], es[k]);
        var j :| 0 <= j < n && EntryOf(hs[..n][j], es[k]);
        assert hs[j] == hs[..n][j] && more[k] == es[k];
      } else {
        assert EntryOf(hs[n], more[k]);
      }
    }
  }




  // ---------------------------------------------------------------------
  // The finished table and make_toc
  // ---------------------------------------------------------------------

  function LinkAttrs(link: Link): map<string, string> {
    if link.numbering.Some? then map["href" := link.href, "data-numbering" := link.numbering.value]
    else map["href" := link.href]
  }

  /** The `li` elements of a list: each holds its link and, when entries
      were added below it, a `ul` with them. */
  function Render(items: seq<Item>): (r: seq<Content>)
    ensures |r| == |items|
    decreases items
  {
    seq(|items|, i requires 0 <= i < |items| =>
      Elem("li", map[], [Elem("a", LinkAttrs(items[i].link), items[i].link.text)]
        + if items[i].sub == [] then [] else [Elem("ul", map[], Render(items[i].sub))]))
  }

  /** Each `li` holds the item's link as an `a` carrying its href, its
      numbering when there is one, and its text, followed by a `ul` with
      the sub-items exactly when there are any. */
  lemma RenderedItem(items: seq<Item>, i: nat)
    requires i < |items|
    ensures var li := Render(items)[i];
      && li.Elem? && li.name == "li" && li.attrs == map[]
      && 1 <= |li.children| <= 2
      && li.children[0] == Elem("a", LinkAttrs(items[i].link), items[i].link.text)
      && li.children[0].attrs["href"] == items[i].link.href
      && ("data-numbering" in li.children[0].attrs <==> items[i].link.numbering.Some?)
      && (|li.children| == 2 <==> items[i].sub != [])
      && (items[i].sub != [] ==> li.children[1] == Elem("ul", map[], Render(items[i].sub)))
  {
  }

  /** `article#doc-toc`: the title as an h1, then the list of h1 items. */
  function TocArticle(title: string, items: seq<Item>): (r: Content)
    ensures r.Elem? && r.name == "article" && r.attrs == map["id" := "doc-toc"] && |r.children| == 2
    ensures r.children[0] == Elem("h1", map[], [Text(title)])
    ensures r.children[1].Elem? && r.children[1].name == "ul" && |r.children[1].children| == |items|
  {
    Elem("article", map["id" := "doc-toc"], [Elem("h1", map[], [Text(title)]), Elem("ul", map[], Render(items))])
  }

  /** The parts of a page that `make_toc` works on: its headings, which it
      numbers in place, and the children of its body. */
  class Page {
    const headings: array<Heading>
    var body: seq<Content>

    constructor(headings: array<Heading>, body: seq<Content>)
      ensures this.headings == headings && this.body == body
    {
      this.headings := headings;
      this.body := body;
    }
  }

  /** `make_toc`: nothing unless `toc` is on; then the numbering when
      `toc_ordering` is on, and the table as the body's first child when
      `toc_level` lies in 1..6. A failure leaves the body as it was. */
  method MakeToc(page: Page, options: TocOptions) returns (r: Result<(), TocError>)
    modifies page, page.headings
    ensures page.headings[..] ==
      if options.toc && options.tocOrdering then Numbering(old(page.headings[..]), options.tocLevel) else old(page.headings[..])
    ensures r.Err? <==> options.toc && LevelInRange(options.tocLevel) && Scan(page.headings[..], options.tocLevel).Err?
    ensures page.body ==
      if options.toc && LevelInRange(options.tocLevel) && r.Ok?
      then [TocArticle(options.tocTitle, Tree(Scan(page.headings[..], options.tocLevel).value.entries))] + old(page.body)
      else old(page.body)
  {
    if !options.toc {
      return Ok(());
    }
    if options.tocOrdering {
      InjectHeadingOrder(page.headings, options.tocLevel);
    }
    var level := options.tocLevel;
    if level < 1 || level > 6 {
      return Ok(());
    }
    var items := CollectToc(page.headings[..], level);
    if items.Err? {
      return Err(items.error);
    }
    page.body := [TocArticle(options.tocTitle, items.value)] + page.body;
    r := Ok(());
  }
}
