/**
 * The parsed HTML document the preprocessing passes work on, and the
 * BeautifulSoup operations they use: `find_all`, attribute assignment and
 * deletion, `clear`, `append`, `insert_after`, `extract` and `decompose`.
 *
 * The document is an arena: nodes are named by their index, each records
 * the node it hangs from and the nodes it contains, so that moving a node
 * keeps its identity as in the object graph BeautifulSoup builds.
 */
module Dom {
  import opened Wrappers

  /** An element with its tag name and attributes, or a piece of text.  A
      multi-valued attribute such as `class` is kept as its raw text. */
  datatype Kind = Element(name: string, attrs: map<string, string>) | TextNode(text: string)

  /** One node: what it is, the node it hangs from, and the nodes it
      contains, in order. */
  datatype Node = Node(kind: Kind, parent: Option<nat>, children: seq<nat>)

  /** A document.  Index 0 is the BeautifulSoup object itself; the parser
      numbers the other nodes in document order. */
  type Forest = seq<Node>

  const Root: nat := 0

  predicate AllBelow(s: seq<nat>, size: nat) {
    forall k :: 0 <= k < |s| ==> s[k] < size
  }

  predicate RefsIn(n: Node, size: nat) {
    (n.parent.Some? ==> n.parent.value < size) && AllBelow(n.children, size)
  }

  /** Every node named anywhere exists. */
  predicate Valid(f: Forest) {
    |f| > 0 && forall i :: 0 <= i < |f| ==> RefsIn(f[i], |f|)
  }

  // ---------------------------------------------------------------------
  // Membership in the document and find_all
  // ---------------------------------------------------------------------

  /** Following parents from `i` reaches the document within `fuel` steps. */
  predicate AttachedWithin(f: Forest, i: nat, fuel: nat)
    decreases fuel
  {
    i == Root || (fuel > 0 && i < |f| && f[i].parent.Some? && AttachedWithin(f, f[i].parent.value, fuel - 1))
  }

  /** Node `i` is part of the document (a chain of parents without repeats
      is shorter than the document). */
  predicate Attached(f: Forest, i: nat) {
    AttachedWithin(f, i, |f|)
  }

  /** Following parents from `x` meets `t` within `fuel` steps, before
      reaching the document itself. */
  predicate Below(f: Forest, x: nat, t: nat, fuel: nat)
    decreases fuel
  {
    x == t || (x != Root && fuel > 0 && x < |f| && f[x].parent.Some? && Below(f, f[x].parent.value, t, fuel - 1))
  }

  /** Whatever hangs below a node that hangs from nothing is not part of
      the document. */
  lemma {:induction false} BelowLooseNode(f: Forest, x: nat, t: nat, fuel: nat, fuel': nat)
    requires t != Root && t < |f| && f[t].parent.None?
    requires Below(f, x, t, fuel)
    ensures !AttachedWithin(f, x, fuel')
    decreases fuel
  {
    if x != t {
      var p := f[x].parent.value;
      if fuel' > 0 {
        BelowLooseNode(f, p, t, fuel - 1, fuel' - 1);
      }
    }
  }

  predicate SameParents(f: Forest, g: Forest) {
    |f| == |g| && forall i :: 0 <= i < |f| ==> g[i].parent == f[i].parent
  }

  lemma {:induction false} AttachedWithinOfSameParents(f: Forest, g: Forest, i: nat, fuel: nat)
    requires SameParents(f, g)
    ensures AttachedWithin(g, i, fuel) == AttachedWithin(f, i, fuel)
    decreases fuel
  {
    if i != Root && fuel > 0 && i < |f| && f[i].parent.Some? {
      AttachedWithinOfSameParents(f, g, f[i].parent.value, fuel - 1);
    }
  }

  /** Changes that keep every parent keep membership in the document. */
  lemma AttachedOfSameParents(f: Forest, g: Forest)
    requires SameParents(f, g)
    ensures forall i :: Attached(g, i) == Attached(f, i)
  {
    forall i ensures Attached(g, i) == Attached(f, i) {
      AttachedWithinOfSameParents(f, g, i, |f|);
    }
  }

  /** Node `i` is in the document, is not the document itself, and is what
      `sel` looks for. */
  predicate Selected(f: Forest, i: nat, sel: Kind -> bool) {
    1 <= i < |f| && Attached(f, i) && sel(f[i].kind)
  }

  predicate Increasing(s: seq<nat>) {
    forall a, b :: 0 <= a < b < |s| ==> s[a] < s[b]
  }

  function FindFrom(f: Forest, sel: Kind -> bool, i: nat): (r: seq<nat>)
    ensures forall x :: x in r <==> i <= x && Selected(f, x, sel)
    ensures Increasing(r) && forall k :: 0 <= k < |r| ==> i <= r[k] < |f|
    decreases |f| - i
  {
    if i >= |f| then []
    else (if Selected(f, i, sel) then [i] else []) + FindFrom(f, sel, i + 1)
  }

  /** `soup.find_all(...)`: the nodes `sel` looks for, in document order. */
  function FindAll(f: Forest, sel: Kind -> bool): (r: seq<nat>)
    ensures forall x :: x in r <==> Selected(f, x, sel)
    ensures Increasing(r) && forall k :: 0 <= k < |r| ==> 1 <= r[k] < |f|
  {
    FindFrom(f, sel, 1)
  }

  /** `soup.find(...)`: the first node `sel` looks for, if any. */
  function FindFirst(f: Forest, sel: Kind -> bool): (r: Option<nat>)
    ensures r.Some? ==> Selected(f, r.value, sel) && forall j :: 0 <= j < r.value ==> !Selected(f, j, sel)
    ensures r.None? ==> forall j :: !Selected(f, j, sel)
  {
    var all := FindAll(f, sel);
    if all == [] then None
    else
      assert all[0] in all;
      assert forall j :: 0 <= j < all[0] ==> j !in all;
      Some(all[0])
  }

  /** The value of an element's attribute, if set. */
  function Attr(k: Kind, key: string): Option<string> {
    if k.Element? && key in k.attrs then Some(k.attrs[key]) else None
  }

  predicate IsElement(k: Kind, name: string) {
    k.Element? && k.name == name
  }

  // ---------------------------------------------------------------------
  // Sequences of node names
  // ---------------------------------------------------------------------

  /** The list without any occurrence of `x`. */
  function Remove(s: seq<nat>, x: nat): (r: seq<nat>)
    ensures x !in r && forall y :: y in r <==> y in s && y != x
    ensures |r| <= |s|
  {
    if s == [] then []
    else (if s[0] == x then [] else [s[0]]) + Remove(s[1..], x)
  }

  lemma {:induction false} RemoveAllBelow(s: seq<nat>, x: nat, size: nat)
    requires AllBelow(s, size)
    ensures AllBelow(Remove(s, x), size)
  {
    if s != [] {
      RemoveAllBelow(s[1..], x, size);
    }
  }

  /** `list.index(x)`: the position of the first occurrence. */
  function IndexOf(s: seq<nat>, x: nat): (k: nat)
    requires x in s
    ensures k < |s| && s[k] == x && forall j :: 0 <= j < k ==> s[j] != x
  {
    if s[0] == x then 0 else 1 + IndexOf(s[1..], x)
  }

  lemma IndexOfAt(s: seq<nat>, x: nat, k: nat)
    requires k < |s| && s[k] == x && forall j :: 0 <= j < k ==> s[j] != x
    ensures IndexOf(s, x) == k
  {
  }

  /** `list.insert(j, y)`. */
  function InsertAt(s: seq<nat>, j: nat, y: nat): (r: seq<nat>)
    requires j <= |s|
    ensures |r| == |s| + 1 && r[j] == y
    ensures forall k :: 0 <= k < j ==> r[k] == s[k]
    ensures forall k :: j < k < |r| ==> r[k] == s[k - 1]
  {
    s[..j] + [y] + s[j..]
  }

  /** `b` comes right after the first occurrence of `a`. */
  predicate NextIn(s: seq<nat>, a: nat, b: nat) {
    a in s && IndexOf(s, a) + 1 < |s| && s[IndexOf(s, a) + 1] == b
  }

  /** Removing a third name keeps `b` right after `a`. */
  lemma {:induction false} RemoveKeepsNext(s: seq<nat>, x: nat, a: nat, b: nat)
    requires NextIn(s, a, b) && x != a && x != b
    ensures NextIn(Remove(s, x), a, b)
  {
    var t := s[1..];
    if s[0] == a {
      assert t[0] == b;
      assert Remove(t, x) == [b] + Remove(t[1..], x);
      assert Remove(s, x) == [a] + Remove(t, x);
    } else {
      assert IndexOf(s, a) == 1 + IndexOf(t, a);
      RemoveKeepsNext(t, x, a, b);
      var rt := Remove(t, x);
      if s[0] == x {
        assert Remove(s, x) == rt;
      } else {
        var r := [s[0]] + rt;
        assert Remove(s, x) == r;
        IndexOfAt(r, a, 1 + IndexOf(rt, a));
      }
    }
  }

  /** Inserting a third name anywhere but between them keeps `b` right
      after `a`. */
  lemma InsertKeepsNext(s: seq<nat>, j: nat, y: nat, a: nat, b: nat)
    requires NextIn(s, a, b) && j <= |s| && y != a && j != IndexOf(s, a) + 1
    ensures NextIn(InsertAt(s, j, y), a, b)
  {
    var i := IndexOf(s, a);
    var r := InsertAt(s, j, y);
    if j <= i {
      forall k | 0 <= k < i + 1 ensures r[k] != a {
        if k > j { assert r[k] == s[k - 1]; }
      }
      IndexOfAt(r, a, i + 1);
    } else {
      IndexOfAt(r, a, i);
    }
  }

  // ---------------------------------------------------------------------
  // Changes to the document
  // ---------------------------------------------------------------------

  /** `tag[key] = value`. */
  function WithAttr(f: Forest, i: nat, key: string, value: string): (g: Forest)
    requires Valid(f) && i < |f|
    ensures Valid(g) && SameParents(f, g)
    ensures forall j :: 0 <= j < |f| && j != i ==> g[j] == f[j]
    ensures g[i].children == f[i].children
    ensures f[i].kind.Element? ==> g[i].kind == Element(f[i].kind.name, f[i].kind.attrs[key := value])
  {
    match f[i].kind
    case Element(name, attrs) => f[i := f[i].(kind := Element(name, attrs[key := value]))]
    case TextNode(_) => f
  }

  /** `del tag[key]`. */
  function WithoutAttr(f: Forest, i: nat, key: string): (g: Forest)
    requires Valid(f) && i < |f|
    ensures Valid(g) && SameParents(f, g)
    ensures forall j :: 0 <= j < |f| && j != i ==> g[j] == f[j]
    ensures g[i].children == f[i].children
    ensures f[i].kind.Element? ==> g[i].kind == Element(f[i].kind.name, f[i].kind.attrs - {key})
  {
    match f[i].kind
    case Element(name, attrs) => f[i := f[i].(kind := Element(name, attrs - {key}))]
    case TextNode(_) => f
  }

  /** `node.extract()`: the node leaves its parent's contents and hangs
      from nothing; what it contains stays with it.  `decompose()` is the
      same as far as the document is concerned. */
  function Detach(f: Forest, x: nat): (g: Forest)
    requires Valid(f) && x < |f|
    ensures Valid(g) && |g| == |f|
    ensures g[x].parent.None?
    ensures forall i :: 0 <= i < |f| ==> g[i].kind == f[i].kind
    ensures forall i :: 0 <= i < |f| && i != x ==> g[i].parent == f[i].parent
    ensures forall i :: 0 <= i < |f| && f[x].parent != Some(i) ==> g[i].children == f[i].children
    ensures f[x].parent.Some? ==> g[f[x].parent.value].children == Remove(f[f[x].parent.value].children, x)
  {
    if f[x].parent.None? then f[x := f[x].(parent := None)]
    else
      var p := f[x].parent.value;
      RemoveAllBelow(f[p].children, x, |f|);
      var h := f[p := f[p].(children := Remove(f[p].children, x))];
      h[x := h[x].(parent := None)]
  }

  /** `tag.clear()`: every node `tag` contains is extracted. */
  function Clear(f: Forest, t: nat): (g: Forest)
    requires Valid(f) && t < |f|
    ensures Valid(g) && |g| == |f|
    ensures g[t].children == [] && g[t].parent == f[t].parent
    ensures forall i :: 0 <= i < |f| ==> g[i].kind == f[i].kind
    ensures forall i :: 0 <= i < |f| && i != t ==> g[i].children == f[i].children
    ensures forall i :: 0 <= i < |f| && i != t ==> g[i].parent == if i in f[t].children then None else f[i].parent
  {
    seq(|f|, i requires 0 <= i < |f| =>
      if i == t then f[t].(children := [])
      else if i in f[t].children then f[i].(parent := None)
      else f[i])
  }

  /** `tag.append(c)`: `c` is extracted and becomes the last node of `tag`. */
  function Append(f: Forest, t: nat, c: nat): (g: Forest)
    requires Valid(f) && t < |f| && c < |f| && c != t
    ensures Valid(g) && |g| == |f|
    ensures g[c].parent == Some(t)
    ensures var h := Detach(f, c); g[t].children == h[t].children + [c]
    ensures forall i :: 0 <= i < |f| ==> g[i].kind == f[i].kind
    ensures forall i :: 0 <= i < |f| && i != c ==> g[i].parent == f[i].parent
  {
    var h := Detach(f, c);
    h[t := h[t].(children := h[t].children + [c])][c := h[c].(parent := Some(t))]
  }

  /** Parent links and contents agree: every node listed in the contents
      of `p` has `p` as its parent, as in every tree the parser builds. */
  predicate Consistent(f: Forest) {
    forall p, c :: 0 <= p < |f| && c in f[p].children ==> c < |f| && f[c].parent == Some(p)
  }

  lemma {:induction false} AttachedWithinMore(f: Forest, i: nat, fuel: nat, fuel': nat)
    requires AttachedWithin(f, i, fuel) && fuel <= fuel'
    ensures AttachedWithin(f, i, fuel')
    decreases fuel
  {
    if i != Root {
      AttachedWithinMore(f, f[i].parent.value, fuel - 1, fuel' - 1);
    }
  }

  /** A node on the way from an attached node to the document is attached. */
  lemma {:induction false} BelowAttached(f: Forest, y: nat, t: nat, n: nat, fuel: nat)
    requires AttachedWithin(f, y, fuel) && Below(f, y, t, n)
    ensures AttachedWithin(f, t, fuel)
    decreases n
  {
    if y != t {
      BelowAttached(f, f[y].parent.value, t, n - 1, fuel - 1);
      AttachedWithinMore(f, t, fuel - 1, fuel);
    }
  }

  /** A node whose parents lead back to itself is not in the document. */
  lemma {:induction false} CycleNotAttached(f: Forest, x: nat, n: nat, fuel: nat)
    requires x != Root && x < |f| && f[x].parent.Some? && Below(f, f[x].parent.value, x, n)
    ensures !AttachedWithin(f, x, fuel)
    decreases fuel
  {
    if fuel > 0 && AttachedWithin(f, x, fuel) {
      BelowAttached(f, f[x].parent.value, x, n, fuel - 1);
      CycleNotAttached(f, x, n, fuel - 1);
    }
  }

  /** Clearing only cuts parent links, so it adds nothing to the document. */
  lemma {:induction false} AttachedBeforeClear(f: Forest, t: nat, i: nat, fuel: nat)
    requires Valid(f) && t < |f| && AttachedWithin(Clear(f, t), i, fuel)
    ensures AttachedWithin(f, i, fuel)
    decreases fuel
  {
    if i != Root {
      AttachedBeforeClear(f, t, Clear(f, t)[i].parent.value, fuel - 1);
    }
  }

  /** A chain to the document that does not pass through `t` survives
      clearing `t`. */
  lemma {:induction false} AttachedAfterClear(f: Forest, t: nat, y: nat, fuel: nat)
    requires Valid(f) && Consistent(f) && t < |f|
    requires AttachedWithin(f, y, fuel) && !Below(f, y, t, fuel)
    ensures AttachedWithin(Clear(f, t), y, fuel)
    decreases fuel
  {
    if y != Root {
      AttachedAfterClear(f, t, f[y].parent.value, fuel - 1);
    }
  }

  /** Clearing an attached node keeps it in the document. */
  lemma ClearKeepsAttached(f: Forest, t: nat)
    requires Valid(f) && Consistent(f) && 1 <= t < |f| && Attached(f, t)
    ensures Attached(Clear(f, t), t)
  {
    var p := f[t].parent.value;
    if Below(f, p, t, |f| - 1) {
      CycleNotAttached(f, t, |f| - 1, |f|);
    }
    AttachedAfterClear(f, t, p, |f| - 1);
  }

  /** In a consistent document, the first node `sel` picks is still the
      first after its contents are cleared. */
  lemma ClearKeepsFirst(f: Forest, t: nat, sel: Kind -> bool)
    requires Valid(f) && Consistent(f) && FindFirst(f, sel) == Some(t)
    ensures FindFirst(Clear(f, t), sel) == Some(t)
  {
    var g := Clear(f, t);
    ClearKeepsAttached(f, t);
    assert Selected(g, t, sel);
    forall j | 0 <= j < t ensures !Selected(g, j, sel) {
      if Selected(g, j, sel) {
        AttachedBeforeClear(f, t, j, |f|);
        assert Selected(f, j, sel);
      }
    }
  }

  /** The ways `insert_after` can raise. */
  datatype DomError =
    | NoParent     // "Element has no parent, so 'after' has no meaning."
    | AfterItself  // "Can't insert an element after itself."
    | NotAChild    // `parent.index(self)` fails
    | IntoItself   // "Cannot insert a tag into itself."

  /** `anchor.insert_after(x)`: `x` is extracted and placed right after the
      first occurrence of `anchor` among its parent's contents. */
  function InsertAfter(f: Forest, anchor: nat, x: nat): (r: Result<Forest, DomError>)
    requires Valid(f) && anchor < |f| && x < |f|
    ensures r.Ok? ==> Valid(r.value) && |r.value| == |f|
    ensures r.Ok? <==> f[anchor].parent.Some? && anchor != x && x != f[anchor].parent.value
                       && anchor in Detach(f, x)[f[anchor].parent.value].children
  {
    if f[anchor].parent.None? then Err(NoParent)
    else if anchor == x then Err(AfterItself)
    else
      var h := Detach(f, x);
      var p := h[anchor].parent.value;
      if anchor !in h[p].children then Err(NotAChild)
      else if x == p then Err(IntoItself)
      else Ok(InsertChild(h, p, anchor, x))
  }

  /** `x` put right after `anchor` among the children of `p`, and hung
      from `p`. */
  function InsertChild(h: Forest, p: nat, anchor: nat, x: nat): (g: Forest)
    requires Valid(h) && p < |h| && x < |h| && x != p && anchor in h[p].children
    ensures Valid(g) && |g| == |h|
    ensures g[p].children == InsertAt(h[p].children, IndexOf(h[p].children, anchor) + 1, x)
    ensures g[x].parent == Some(p)
    ensures forall i :: 0 <= i < |h| && i != p ==> g[i].children == h[i].children
    ensures forall i :: 0 <= i < |h| ==> g[i].kind == h[i].kind
    ensures forall i :: 0 <= i < |h| && i != x ==> g[i].parent == h[i].parent
  {
    var s := h[p].children;
    h[p := h[p].(children := InsertAt(s, IndexOf(s, anchor) + 1, x))][x := h[x].(parent := Some(p))]
  }

  /** A successful `insert_after` puts `x` right after `anchor`, hangs it
      from `anchor`'s parent, and moves nothing else. */
  lemma InsertAfterPlaces(f: Forest, anchor: nat, x: nat)
    requires Valid(f) && anchor < |f| && x < |f| && InsertAfter(f, anchor, x).Ok?
    ensures var g, p := InsertAfter(f, anchor, x).value, f[anchor].parent.value;
      && NextIn(g[p].children, anchor, x)
      && g[x].parent == Some(p)
      && (forall i :: 0 <= i < |f| ==> g[i].kind == f[i].kind)
      && (forall i :: 0 <= i < |f| && i != x ==> g[i].parent == f[i].parent)
  {
    var h := Detach(f, x);
    var p := f[anchor].parent.value;
    var s := h[p].children;
    var g := InsertChild(h, p, anchor, x);
    assert InsertAfter(f, anchor, x).value == g;
    IndexOfAt(g[p].children, anchor, IndexOf(s, anchor));
  }

  /** Extracting a third node keeps `b` right after `a` in `p`. */
  lemma DetachKeepsNext(f: Forest, x: nat, p: nat, a: nat, b: nat)
    requires Valid(f) && x < |f| && p < |f| && NextIn(f[p].children, a, b) && x != a && x != b
    ensures NextIn(Detach(f, x)[p].children, a, b)
  {
    if f[x].parent == Some(p) {
      RemoveKeepsNext(f[p].children, x, a, b);
    }
  }

  /** An `insert_after` at another anchor, moving a third node, keeps `b`
      right after `a` in `p`. */
  lemma InsertAfterKeepsNext(f: Forest, anchor: nat, x: nat, p: nat, a: nat, b: nat)
    requires Valid(f) && anchor < |f| && x < |f| && p < |f| && InsertAfter(f, anchor, x).Ok?
    requires NextIn(f[p].children, a, b) && anchor != a && x != a && x != b
    ensures NextIn(InsertAfter(f, anchor, x).value[p].children, a, b)
  {
    var h := Detach(f, x);
    DetachKeepsNext(f, x, p, a, b);
    var q := f[anchor].parent.value;
    assert InsertAfter(f, anchor, x).value == InsertChild(h, q, anchor, x);
    if q == p {
      var s := h[p].children;
      var i := IndexOf(s, anchor);
      assert i != IndexOf(s, a) by {
        assert s[i] == anchor && s[IndexOf(s, a)] == a;
      }
      InsertKeepsNext(s, i + 1, x, a, b);
    }
  }

  // ---------------------------------------------------------------------
  // The document object
  // ---------------------------------------------------------------------

  /** The BeautifulSoup object: the passes change its nodes in place. */
  class Soup {
    var nodes: Forest

    constructor(f: Forest)
      requires Valid(f)
      ensures nodes == f
    {
      nodes := f;
    }

    method SetAttribute(i: nat, key: string, value: string)
      requires Valid(nodes) && i < |nodes|
      modifies this
      ensures nodes == WithAttr(old(nodes), i, key, value)
    {
      nodes := WithAttr(nodes, i, key, value);
    }

    method DeleteAttribute(i: nat, key: string)
      requires Valid(nodes) && i < |nodes|
      modifies this
      ensures nodes == WithoutAttr(old(nodes), i, key)
    {
      nodes := WithoutAttr(nodes, i, key);
    }

    method ClearContents(t: nat)
      requires Valid(nodes) && t < |nodes|
      modifies this
      ensures nodes == Clear(old(nodes), t)
    {
      nodes := Clear(nodes, t);
    }

    method AppendChild(t: nat, c: nat)
      requires Valid(nodes) && t < |nodes| && c < |nodes| && c != t
      modifies this
      ensures nodes == Append(old(nodes), t, c)
    {
      nodes := Append(nodes, t, c);
    }

    /** On failure nothing is promised about the document: BeautifulSoup
        may already have extracted `x` before it raises, and the passes
        abandon the document once it has. */
    method InsertNodeAfter(anchor: nat, x: nat) returns (r: Result<(), DomError>)
      requires Valid(nodes) && anchor < |nodes| && x < |nodes|
      modifies this
      ensures r.Ok? <==> InsertAfter(old(nodes), anchor, x).Ok?
      ensures r.Ok? ==> nodes == InsertAfter(old(nodes), anchor, x).value
    {
      var outcome := InsertAfter(nodes, anchor, x);
      if outcome.Err? {
        return Err(outcome.error);
      }
      nodes := outcome.value;
      return Ok(());
    }

    method Decompose(x: nat)
      requires Valid(nodes) && x < |nodes|
      modifies this
      ensures nodes == Detach(old(nodes), x)
    {
      nodes := Detach(nodes, x);
    }
  }
}
