/** An abstract DOM: element and text nodes, `textContent`, the element
    tree walk behind `querySelectorAll`, the subset of CSS selectors the
    extension uses, and the few writes it makes to an element. */
module Dom {
  import opened Seqs
  import opened Text

  /** A DOM node. `tag` is the upper-case `tagName`; `attrs` holds the
      content attributes (including the `style` attribute as written in the
      markup); `style` holds the inline CSS properties set from script. */
  datatype Node =
    | Element(id: nat, tag: string, attrs: map<string, string>, classes: set<string>,
              style: map<string, string>, childNodes: seq<Node>)
    | TextNode(data: string)

  /** A node known to be an element (`Element`, as opposed to `Node`). */
  type ElementNode = n: Node | n.Element? witness Element(0, "DIV", map[], {}, map[], [])

  /** `node.textContent`: the text nodes below `n`, in document order. */
  function TextContent(n: Node): string {
    match n
    case TextNode(d) => d
    case Element(_, _, _, _, _, cs) => TextOfAll(cs)
  }

  function TextOfAll(cs: seq<Node>): string
    decreases cs
  {
    if |cs| == 0 then ""
    else
      (match cs[0]
       case TextNode(d) => d
       case Element(_, _, _, _, _, gs) => TextOfAll(gs))
      + TextOfAll(cs[1..])
  }

  /** `element.children`: the element children, in order. */
  function Children(n: Node): (r: seq<Node>)
    ensures forall i :: 0 <= i < |r| ==> r[i].Element?
  {
    if n.TextNode? then [] else ElementsOf(n.childNodes)
  }

  /** The elements among `cs`, in order. */
  function ElementsOf(cs: seq<Node>): (r: seq<Node>)
    ensures forall i :: 0 <= i < |r| ==> r[i].Element? && r[i] in cs
    ensures forall i :: 0 <= i < |cs| && cs[i].Element? ==> cs[i] in r
  {
    if |cs| == 0 then []
    else
      var rest := ElementsOf(cs[1..]);
      assert forall i :: 1 <= i < |cs| ==> cs[i] == cs[1..][i - 1];
      if cs[0].Element? then [cs[0]] + rest else rest
  }

  /** `element.getAttribute(name)`. */
  function GetAttribute(n: Node, name: string): Option<string> {
    if n.Element? && name in n.attrs then Some(n.attrs[name]) else None
  }

  /** `(element as HTMLElement).style[prop]`: an unset property reads `''`. */
  function StyleValue(n: Node, prop: string): string
    requires n.Element?
  {
    if prop in n.style then n.style[prop] else ""
  }

  /** The number of nodes in the tree rooted at `n`. */
  function Size(n: Node): nat {
    match n
    case TextNode(_) => 1
    case Element(_, _, _, _, _, cs) => 1 + SizeOfAll(cs)
  }

  function SizeOfAll(cs: seq<Node>): nat
    decreases cs
  {
    if |cs| == 0 then 0
    else
      (match cs[0]
       case TextNode(_) => 1
       case Element(_, _, _, _, _, gs) => 1 + SizeOfAll(gs))
      + SizeOfAll(cs[1..])
  }

  // ---------------------------------------------------------------------
  // Selectors

  /** `[name]`, `[name="value"]` and `[name*="value"]`. */
  datatype AttrTest =
    | Present(name: string)
    | ValueIs(name: string, value: string)
    | ValueContains(name: string, value: string)

  /** A compound selector: an optional type selector and attribute tests. */
  datatype Compound = Compound(tag: Option<string>, tests: seq<AttrTest>)

  /** A complex selector of compounds joined by descendant combinators
      (`h4 a span`), and a selector list (`a, b`). */
  type Chain = seq<Compound>
  type Selector = seq<Chain>

  function TagIs(tag: string): Compound {
    Compound(Some(tag), [])
  }

  predicate PassesTest(n: Node, t: AttrTest)
    requires n.Element?
  {
    match t
    case Present(a) => a in n.attrs
    case ValueIs(a, v) => a in n.attrs && n.attrs[a] == v
    // `[a*=""]` matches nothing
    case ValueContains(a, v) => v != "" && a in n.attrs && Includes(n.attrs[a], v)
  }

  predicate MatchesCompound(n: Node, c: Compound) {
    && n.Element?
    && (c.tag.None? || n.tag == c.tag.value)
    && forall i :: 0 <= i < |c.tests| ==> PassesTest(n, c.tests[i])
  }

  /** The compounds of `chain` match ancestors of the node, in order,
      `anc` being listed from the outermost ancestor inwards. */
  predicate AncestorsMatch(anc: seq<Node>, chain: Chain)
    decreases |anc|
  {
    if |chain| == 0 then true
    else if |anc| == 0 then false
    else
      || (MatchesCompound(anc[|anc| - 1], chain[|chain| - 1]) && AncestorsMatch(anc[..|anc| - 1], chain[..|chain| - 1]))
      || AncestorsMatch(anc[..|anc| - 1], chain)
  }

  predicate MatchesChain(anc: seq<Node>, n: Node, chain: Chain) {
    && |chain| > 0
    && MatchesCompound(n, chain[|chain| - 1])
    && AncestorsMatch(anc, chain[..|chain| - 1])
  }

  /** `element.matches(selector)`, the ancestors being `anc`. */
  predicate Matches(anc: seq<Node>, n: Node, sel: Selector) {
    exists i :: 0 <= i < |sel| && MatchesChain(anc, n, sel[i])
  }

  // ---------------------------------------------------------------------
  // Tree walk

  /** An element together with its ancestors, outermost first. */
  datatype Located = Located(ancestors: seq<Node>, node: Node)

  /** `parentElement` (null at the root of the walk). */
  function Parent(l: Located): Option<Node> {
    if |l.ancestors| == 0 then None else Some(l.ancestors[|l.ancestors| - 1])
  }

  /** The element descendants of the nodes `cs` (including those that are
      elements themselves), in document order; `anc` are the ancestors of `cs`. */
  function DescendantsOf(anc: seq<Node>, cs: seq<Node>): (r: seq<Located>)
    ensures forall i :: 0 <= i < |r| ==> r[i].node.Element? && anc <= r[i].ancestors
    decreases cs
  {
    if |cs| == 0 then []
    else
      var c := cs[0];
      (if c.Element? then [Located(anc, c)] + DescendantsOf(anc + [c], c.childNodes) else [])
      + DescendantsOf(anc, cs[1..])
  }

  /** All element descendants of `root`, excluding `root`, in preorder. */
  function Descendants(root: Node): (r: seq<Located>)
    ensures forall i :: 0 <= i < |r| ==> r[i].node.Element? && |r[i].ancestors| > 0 && r[i].ancestors[0] == root
  {
    if root.TextNode? then [] else DescendantsOf([root], root.childNodes)
  }

  /** `root.querySelectorAll(sel)` with each hit's ancestors. Ancestors
      above `root` are not consulted. */
  function SelectLocated(root: Node, sel: Selector): (r: seq<Located>)
    ensures forall i :: 0 <= i < |r| ==> r[i].node.Element?
  {
    MatchingAmong(Descendants(root), sel)
  }

  /** The entries of `ls` whose node matches `sel`, in order. */
  function MatchingAmong(ls: seq<Located>, sel: Selector): (r: seq<Located>)
    ensures forall i :: 0 <= i < |r| ==> r[i].node.Element?
  {
    if |ls| == 0 then []
    else if Matches(ls[0].ancestors, ls[0].node, sel) then [ls[0]] + MatchingAmong(ls[1..], sel)
    else MatchingAmong(ls[1..], sel)
  }

  /** Every entry `MatchingAmong` keeps comes from `ls` and matches. */
  lemma {:induction false} MatchingAmongSound(ls: seq<Located>, sel: Selector)
    ensures forall i :: 0 <= i < |MatchingAmong(ls, sel)| ==>
      Matches(MatchingAmong(ls, sel)[i].ancestors, MatchingAmong(ls, sel)[i].node, sel) && MatchingAmong(ls, sel)[i] in ls
  {
    if |ls| > 0 {
      MatchingAmongSound(ls[1..], sel);
      assert forall l :: l in ls[1..] ==> l in ls;
    }
  }

  /** Every entry of `ls` that matches is kept. */
  lemma {:induction false} MatchingAmongComplete(ls: seq<Located>, sel: Selector)
    ensures forall i :: 0 <= i < |ls| && Matches(ls[i].ancestors, ls[i].node, sel) ==> ls[i] in MatchingAmong(ls, sel)
  {
    if |ls| > 0 {
      MatchingAmongComplete(ls[1..], sel);
      assert forall i :: 1 <= i < |ls| ==> ls[i] == ls[1..][i - 1];
    }
  }

  /** The nodes of located entries. */
  function NodesOf(ls: seq<Located>): (r: seq<Node>)
    ensures |r| == |ls| && forall i :: 0 <= i < |ls| ==> r[i] == ls[i].node
  {
    if |ls| == 0 then [] else [ls[0].node] + NodesOf(ls[1..])
  }

  /** `root.querySelectorAll(sel)`. */
  function QuerySelectorAll(root: Node, sel: Selector): (r: seq<Node>)
    ensures forall i :: 0 <= i < |r| ==> r[i].Element?
  {
    NodesOf(SelectLocated(root, sel))
  }

  /** `root.querySelector(sel)`: the first hit of `querySelectorAll`. */
  function QuerySelector(root: Node, sel: Selector): (r: Option<Node>)
    ensures r.Some? ==> r.value.Element?
  {
    var all := QuerySelectorAll(root, sel);
    if |all| > 0 then Some(all[0]) else None
  }

  /** `document.querySelectorAll(sel)`, `root` standing for the document
      element, which is itself a candidate. */
  function DocumentSelectLocated(root: Node, sel: Selector): (r: seq<Located>)
    ensures forall i :: 0 <= i < |r| ==> r[i].node.Element?
  {
    (if Matches([], root, sel) then [Located([], root)] else []) + SelectLocated(root, sel)
  }

  // ---------------------------------------------------------------------
  // Ancestors strictly contain their descendants

  /** Every ancestor recorded by the walk is a larger tree than the node. */
  lemma {:induction false} AncestorsAreLarger(anc: seq<Node>, cs: seq<Node>)
    requires forall j :: 0 <= j < |anc| ==> Size(anc[j]) > SizeOfAll(cs)
    ensures forall i, j :: 0 <= i < |DescendantsOf(anc, cs)| && 0 <= j < |DescendantsOf(anc, cs)[i].ancestors| ==>
              Size(DescendantsOf(anc, cs)[i].ancestors[j]) > Size(DescendantsOf(anc, cs)[i].node)
    decreases cs
  {
    if |cs| > 0 {
      var c := cs[0];
      assert SizeOfAll(cs) == Size(c) + SizeOfAll(cs[1..]);
      AncestorsAreLarger(anc, cs[1..]);
      if c.Element? {
        assert Size(c) == 1 + SizeOfAll(c.childNodes);
        AncestorsAreLarger(anc + [c], c.childNodes);
        var head := [Located(anc, c)] + DescendantsOf(anc + [c], c.childNodes);
        assert DescendantsOf(anc, cs) == head + DescendantsOf(anc, cs[1..]);
      }
    }
  }

  /** No element found by the walk is among its own ancestors. */
  lemma NotItsOwnAncestor(root: Node, i: nat)
    requires i < |Descendants(root)|
    ensures Descendants(root)[i].node !in Descendants(root)[i].ancestors
  {
    if root.Element? {
      assert Size(root) == 1 + SizeOfAll(root.childNodes);
      AncestorsAreLarger([root], root.childNodes);
    }
  }

  // ---------------------------------------------------------------------
  // Writes to one element

  /** The node is still the same element with the same attributes and
      classes, and only the style properties in `props` may differ. */
  predicate OnlyStyleChanged(a: Node, b: Node, props: set<string>) {
    && a.Element? && b.Element?
    && a.id == b.id && a.tag == b.tag && a.childNodes == b.childNodes
    && a.attrs == b.attrs && a.classes == b.classes
    && a.style - props == b.style - props
  }

  /** `el.style[prop] = value`; assigning `''` removes the declaration. */
  function SetStyle(n: Node, prop: string, value: string): (r: Node)
    requires n.Element?
    ensures OnlyStyleChanged(n, r, {prop})
    ensures StyleValue(r, prop) == value
  {
    if value == "" then n.(style := n.style - {prop}) else n.(style := n.style[prop := value])
  }
}
