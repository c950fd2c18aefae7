/** The DOM helpers of `src/utils/helpers.ts`: a text test on `textContent`,
    "matches or contains", the bounded walk up the parents, and the inline
    hide/show pair with its marker attribute. */
module Helpers {
  import opened Seqs
  import opened Text
  import opened Dom
  import opened FacebookSelectors

  // ---------------------------------------------------------------------
  // containsText

  /** `containsText(element, texts)`: the lower-cased `textContent` contains
      some lower-cased text. Nothing is trimmed. */
  function ContainsText(el: Node, texts: seq<string>): (r: bool)
    ensures r <==> exists i :: 0 <= i < |texts| && exists k :: OccursAt(Lower(TextContent(el)), Lower(texts[i]), k)
  {
    SomeIncluded(Lower(TextContent(el)), texts)
  }

  /** An empty list of texts never matches. */
  lemma ContainsNoText(el: Node)
    ensures !ContainsText(el, [])
  {
  }

  /** An occurrence inside the trimmed string is an occurrence in the
      string itself. */
  lemma OccursInUntrimmed(t: string, sub: string, k: int)
    requires OccursAt(Trim(t), sub, k)
    ensures exists m :: OccursAt(t, sub, m)
  {
    TrimIsSlice(t);
    OccursInSlice(t, SpaceRunEnd(t, 0), |Trim(t)|, sub, k);
  }

  /** An occurrence inside a slice is an occurrence in the whole string. */
  lemma OccursInSlice(s: string, i: nat, n: nat, sub: string, k: int)
    requires i + n <= |s| && OccursAt(s[i..i + n], sub, k)
    ensures OccursAt(s, sub, i + k)
  {
    forall m | 0 <= m < |sub| ensures s[i + k + m] == sub[m] {
      assert s[i..i + n][k..k + |sub|][m] == sub[m];
    }
    assert s[i + k..i + k + |sub|] == sub;
  }

  /** Whatever `matchesAny` finds in an element's text, `containsText` finds
      too: trimming only removes text. */
  lemma MatchesAnyImpliesContainsText(el: Node, texts: seq<string>)
    requires MatchesAny(Some(TextContent(el)), texts)
    ensures ContainsText(el, texts)
  {
    var t := Lower(TextContent(el));
    assert Normalize(TextContent(el)) == Trim(t);
    var i :| 0 <= i < |texts| && exists k :: OccursAt(Trim(t), Lower(texts[i]), k);
    var k :| OccursAt(Trim(t), Lower(texts[i]), k);
    OccursInUntrimmed(t, Lower(texts[i]), k);
  }

  /** The converse fails: an empty text contains the empty string, which
      `matchesAny` rejects because the text is empty. */
  lemma ContainsTextIsNotMatchesAny()
    ensures var el := Element(0, "DIV", map[], {}, map[], []);
      ContainsText(el, [""]) && !MatchesAny(Some(TextContent(el)), [""])
  {
    var el := Element(0, "DIV", map[], {}, map[], []);
    assert OccursAt(Lower(TextContent(el)), Lower([""][0]), 0);
  }

  // ---------------------------------------------------------------------
  // matchesOrContains

  /** The descendants of a located element, each with its full ancestor
      list, as `element.querySelector` sees them. */
  function DescendantsIn(l: Located): (r: seq<Located>)
    requires l.node.Element?
    ensures forall i :: 0 <= i < |r| ==> r[i].node.Element?
  {
    DescendantsOf(l.ancestors + [l.node], l.node.childNodes)
  }

  /** `matchesOrContains(element, selector)`: the element or one of its
      descendants matches. */
  function MatchesOrContains(l: Located, sel: Selector): (r: bool)
    requires l.node.Element?
    ensures r <==> (Matches(l.ancestors, l.node, sel)
      || exists i :: 0 <= i < |DescendantsIn(l)| && Matches(DescendantsIn(l)[i].ancestors, DescendantsIn(l)[i].node, sel))
  {
    var ds := DescendantsIn(l);
    var hits := MatchingAmong(ds, sel);
    MatchingAmongSound(ds, sel);
    MatchingAmongComplete(ds, sel);
    assert |hits| > 0 ==> exists i :: 0 <= i < |ds| && Matches(ds[i].ancestors, ds[i].node, sel) by {
      if |hits| > 0 {
        assert Matches(hits[0].ancestors, hits[0].node, sel) && hits[0] in ds;
      }
    }
    Matches(l.ancestors, l.node, sel) || |hits| > 0
  }

  // ---------------------------------------------------------------------
  // findClosestParent

  /** `findClosestParent(element, condition, maxDepth)`: walk up from the
      parent, at most `maxDepth` steps, and return the first ancestor that
      satisfies the condition. The ancestors of `l` are listed outermost
      first, so the parent is the last one; the ancestor at index `k` is
      examined iff `|l.ancestors| - k <= maxDepth`. */
  method FindClosestParent(l: Located, condition: Node -> bool, maxDepth: int) returns (r: Option<Node>)
    ensures r.Some? ==> exists j :: (0 <= j < |l.ancestors| && |l.ancestors| - j <= maxDepth
      && l.ancestors[j] == r.value && condition(r.value)
      && forall k :: j < k < |l.ancestors| ==> !condition(l.ancestors[k]))
    ensures r.None? ==> forall k :: 0 <= k < |l.ancestors| && |l.ancestors| - k <= maxDepth ==> !condition(l.ancestors[k])
  {
    var anc := l.ancestors;
    var idx := |anc|;
    var depth := 0;
    while idx > 0 && depth < maxDepth
      invariant 0 <= idx <= |anc|
      invariant depth == |anc| - idx
      invariant forall k :: idx <= k < |anc| ==> !condition(anc[k])
    {
      if condition(anc[idx - 1]) {
        return Some(anc[idx - 1]);
      }
      idx := idx - 1;
      depth := depth + 1;
    }
    return None;
  }

  /** A non-positive depth examines nothing. */
  method FindClosestParentNoDepth(l: Located, condition: Node -> bool, maxDepth: int) returns (r: Option<Node>)
    requires maxDepth <= 0
    ensures r.None?
  {
    r := FindClosestParent(l, condition, maxDepth);
  }

  // ---------------------------------------------------------------------
  // hideElement / showElement / isHiddenByExtension

  const HiddenAttribute: string := "data-clarity-hidden"

  /** The inline style `hideElement` writes, by CSS property name
      (`maxHeight` is `max-height`, and so on). */
  const HideStyle: map<string, string> := map[
    "transition" := "opacity 0.3s ease-out, max-height 0.3s ease-out",
    "opacity" := "0",
    "max-height" := "0",
    "overflow" := "hidden",
    "margin-top" := "0",
    "margin-bottom" := "0"
  ]

  const HideProperties: set<string> := {"transition", "opacity", "max-height", "overflow", "margin-top", "margin-bottom"}

  /** Nothing but the six style properties and the hidden attribute differs. */
  predicate OnlyHideStateChanged(a: Node, b: Node) {
    && a.Element? && b.Element?
    && a.id == b.id && a.tag == b.tag && a.classes == b.classes && a.childNodes == b.childNodes
    && a.style - HideProperties == b.style - HideProperties
    && a.attrs - {HiddenAttribute} == b.attrs - {HiddenAttribute}
  }

  /** `isHiddenByExtension(element)`. */
  predicate IsHiddenByExtension(el: Node) {
    GetAttribute(el, HiddenAttribute) == Some("true")
  }

  /** `hideElement(element)`. */
  function HideElement(el: Node): (r: Node)
    requires el.Element?
    ensures IsHiddenByExtension(r)
    ensures OnlyHideStateChanged(el, r)
    ensures forall p :: p in HideProperties ==> StyleValue(r, p) == HideStyle[p]
  {
    el.(style := el.style + HideStyle, attrs := el.attrs[HiddenAttribute := "true"])
  }

  /** `showElement(element)`: assigning `''` removes each declaration. */
  function ShowElement(el: Node): (r: Node)
    requires el.Element?
    ensures !IsHiddenByExtension(r)
    ensures OnlyHideStateChanged(el, r)
    ensures forall p :: p in HideProperties ==> StyleValue(r, p) == ""
  {
    el.(style := el.style - HideProperties, attrs := el.attrs - {HiddenAttribute})
  }

  /** Hiding twice is hiding once. */
  lemma HideIdempotent(el: Node)
    requires el.Element?
    ensures HideElement(HideElement(el)) == HideElement(el)
  {
  }

  /** Showing forgets any earlier hiding, and hiding any earlier showing. */
  lemma ShowAfterHide(el: Node)
    requires el.Element?
    ensures ShowElement(HideElement(el)) == ShowElement(el)
    ensures HideElement(ShowElement(el)) == HideElement(el)
  {
  }

  /** On an element without any of the six properties or the attribute,
      showing undoes hiding exactly. */
  lemma ShowUndoesHide(el: Node)
    requires el.Element?
    requires forall p :: p in HideProperties ==> p !in el.style
    requires HiddenAttribute !in el.attrs
    ensures ShowElement(HideElement(el)) == el
  {
    assert el.style - HideProperties == el.style;
    assert el.attrs - {HiddenAttribute} == el.attrs;
  }
}
