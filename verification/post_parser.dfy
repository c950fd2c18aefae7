/** The post parser (`src/content/services/post-parser.service.ts`):
    visible-text extraction, the six-way source classification, field
    extraction, and locating the feed and its posts. */
module PostParser {
  import opened Seqs
  import opened Text
  import opened Dom
  import opened FacebookSelectors

  /** Where a post comes from. The declared `PostSource` type lists only the
      first four; the parser also produces the last two. */
  datatype Source = Following | Suggested | Sponsored | Reels | PeopleSuggestion | GroupSuggestion

  /** The two phrase lists the parser imports whose definitions are not part
      of this model ("people you may know" and group-suggestion texts). */
  datatype Vocabulary = Vocabulary(peopleYouMayKnow: seq<string>, groupSuggestions: seq<string>)

  datatype Reactions = Reactions(total: string, like: string, love: string)

  datatype ParsedPost = ParsedPost(
    author: Option<string>,
    content: Option<string>,
    postLink: Option<string>,
    images: seq<string>,
    reactions: Reactions,
    comments: string,
    shares: string,
    source: Source)

  // ---------------------------------------------------------------------
  // Selectors used by the parser

  const BoldSelector: Selector := [[TagIs("B")]]
  const HeadingSelector: Selector := [[TagIs("H3")]]
  const SpanSelector: Selector := [[TagIs("SPAN")]]
  const ArticleSelector: Selector := [[Compound(None, [ValueIs("role", "article")])]]

  const AuthorSelectors: seq<Selector> := [
    [[Compound(None, [ValueIs("data-ad-rendering-role", "profile_name")]), TagIs("SPAN")]],
    [[TagIs("H4"), TagIs("A"), TagIs("SPAN")]],
    [[TagIs("H3"), TagIs("A"), TagIs("SPAN")]],
    [[TagIs("STRONG"), TagIs("A")]],
    [[Compound(Some("A"), [ValueIs("role", "link")]), TagIs("SPAN"), TagIs("STRONG")]],
    [[TagIs("H2"), TagIs("SPAN"), TagIs("A"), TagIs("STRONG"), TagIs("SPAN")]],
    [[TagIs("SPAN"), TagIs("A"), TagIs("STRONG"), TagIs("SPAN")]]
  ]

  const ContentSelectors: seq<Selector> := [
    [[Compound(None, [ValueIs("data-ad-rendering-role", "story_message")])]],
    [[Compound(None, [ValueIs("data-ad-comet-preview", "message")])]],
    [[Compound(Some("DIV"), [ValueIs("dir", "auto")])]],
    [[Compound(Some("SPAN"), [ValueIs("dir", "auto")])]]
  ]

  const PostLinkSelector: Selector := [
    [Compound(Some("A"), [ValueContains("href", "?__cft__")])],
    [Compound(Some("A"), [ValueContains("href", "/posts/")])],
    [Compound(Some("A"), [ValueContains("href", "/permalink/")])]
  ]

  const ImageSelector: Selector := [
    [Compound(Some("IMG"), [ValueContains("src", "fbcdn")])],
    [Compound(Some("IMG"), [Present("alt")])]
  ]

  const ReactionSelector: Selector := [
    [Compound(None, [ValueContains("aria-label", "reaction")])],
    [Compound(None, [ValueContains("aria-label", "like")])]
  ]

  const CommentUnits: seq<string> := ["comment", "bình luận"]
  const ShareUnits: seq<string> := ["share", "chia sẻ"]

  /** Content longer than this is cut, and content not longer than
      `MinContentLength` is skipped. */
  const MaxContentLength: nat := 500
  const MinContentLength: nat := 20
  const MaxImages: nat := 5

  /** Minimum `textContent` length of a feed child, and of a fallback article. */
  const MinFeedPostLength: nat := 50
  const MinArticleLength: nat := 200
  const NavigationMarker: string := "FacebookFacebook"

  // ---------------------------------------------------------------------
  // Visible text

  /** The inline style hides the element. */
  predicate StyleHides(b: Node) {
    var style := GetAttribute(b, "style").GetOr("");
    Includes(style, "display: none") || Includes(style, "display:none")
  }

  /** A `<b>` that has no nested `<b>` and is not hidden by its style. */
  predicate IsVisibleLeafBold(b: Node) {
    QuerySelector(b, BoldSelector).None? && !StyleHides(b)
  }

  /** What one `<b>` adds to the visible text. */
  function BoldPiece(b: Node): string {
    if IsVisibleLeafBold(b) then TextContent(b) else ""
  }

  /** The pieces of `bs`, concatenated in order. */
  function ConcatPieces(bs: seq<Node>, piece: Node -> string): string {
    if |bs| == 0 then "" else piece(bs[0]) + ConcatPieces(bs[1..], piece)
  }

  /** The concatenated text of the visible leaf `<b>` nodes among `bs`. */
  function LeafBoldText(bs: seq<Node>): string {
    ConcatPieces(bs, BoldPiece)
  }

  /** `LeafBoldText` is the filter, map and join the source writes. */
  lemma {:induction false} LeafBoldTextIsFilterMapJoin(bs: seq<Node>)
    ensures LeafBoldText(bs) == Join(MapSeq(Filter(bs, IsVisibleLeafBold), TextContent))
    decreases |bs|
  {
    if |bs| > 0 {
      LeafBoldTextIsFilterMapJoin(bs[1..]);
      var rest := Filter(bs[1..], IsVisibleLeafBold);
      if IsVisibleLeafBold(bs[0]) {
        assert Filter(bs, IsVisibleLeafBold) == [bs[0]] + rest;
        assert MapSeq([bs[0]] + rest, TextContent) == [TextContent(bs[0])] + MapSeq(rest, TextContent);
      } else {
        assert Filter(bs, IsVisibleLeafBold) == rest;
      }
    }
  }

  /** Concatenating pieces distributes over concatenation. */
  lemma {:induction false} ConcatPiecesAppend(xs: seq<Node>, ys: seq<Node>, piece: Node -> string)
    ensures ConcatPieces(xs + ys, piece) == ConcatPieces(xs, piece) + ConcatPieces(ys, piece)
    decreases |xs|
  {
    if |xs| == 0 {
      assert xs + ys == ys;
    } else {
      ConcatPiecesAppend(xs[1..], ys, piece);
      assert (xs + ys)[1..] == xs[1..] + ys;
      assert (xs + ys)[0] == xs[0];
    }
  }

  /** A node whose piece is empty adds nothing to the concatenation. */
  lemma ConcatPiecesSkips(before: seq<Node>, x: Node, after: seq<Node>, piece: Node -> string)
    requires piece(x) == ""
    ensures ConcatPieces(before + [x] + after, piece) == ConcatPieces(before + after, piece)
  {
    ConcatPiecesAppend(before + [x], after, piece);
    ConcatPiecesAppend(before, [x], piece);
    ConcatPiecesAppend(before, after, piece);
    assert ConcatPieces([x], piece) == "" by {
      assert [x][1..] == [];
    }
  }

  /** A `<b>` that is not a visible leaf adds nothing to `LeafBoldText`. */
  lemma LeafBoldTextSkips(before: seq<Node>, x: Node, after: seq<Node>)
    requires !IsVisibleLeafBold(x)
    ensures LeafBoldText(before + [x] + after) == LeafBoldText(before + after)
  {
    ConcatPiecesSkips(before, x, after, BoldPiece);
  }

  /** The trimmed text of the visible leaf `<b>` nodes among `bs`, or the
      trimmed `fallback` when there are no `<b>` nodes or their visible
      text is blank. */
  function VisibleText(bs: seq<Node>, fallback: string): (r: string)
    ensures r == [] || (!IsSpace(r[0]) && !IsSpace(r[|r| - 1]))
    ensures |bs| == 0 ==> r == Trim(fallback)
    ensures r != Trim(fallback) ==> r == Trim(LeafBoldText(bs)) && r != ""
    ensures |bs| > 0 && Trim(LeafBoldText(bs)) != "" ==> r == Trim(LeafBoldText(bs))
    ensures |bs| == 0 || Trim(LeafBoldText(bs)) == "" ==> r == Trim(fallback)
  {
    var visible := LeafBoldText(bs);
    if |bs| > 0 && Trim(visible) != "" then Trim(visible) else Trim(fallback)
  }

  /** `extractVisibleText`: the text a reader sees, excluding hidden
      duplicate labels kept for screen readers. */
  function ExtractVisibleText(element: Node): (r: string)
    ensures r == [] || (!IsSpace(r[0]) && !IsSpace(r[|r| - 1]))
    ensures var bs := QuerySelectorAll(element, BoldSelector);
      && (|bs| > 0 && Trim(LeafBoldText(bs)) != "" ==> r == Trim(LeafBoldText(bs)))
      && (|bs| == 0 || Trim(LeafBoldText(bs)) == "" ==> r == Trim(TextContent(element)))
  {
    VisibleText(QuerySelectorAll(element, BoldSelector), TextContent(element))
  }

  /** A `<b>` whose style hides it contributes nothing to the visible text. */
  lemma HiddenBoldIgnored(before: seq<Node>, hidden: Node, after: seq<Node>, fallback: string)
    requires StyleHides(hidden)
    ensures VisibleText(before + [hidden] + after, fallback) == VisibleText(before + after, fallback)
  {
    LeafBoldTextSkips(before, hidden, after);
  }

  /** A `<b>` that wraps another `<b>` contributes nothing either: only the
      innermost ones are read. */
  lemma NestingBoldIgnored(before: seq<Node>, outer: Node, after: seq<Node>, fallback: string)
    requires QuerySelector(outer, BoldSelector).Some?
    ensures VisibleText(before + [outer] + after, fallback) == VisibleText(before + after, fallback)
  {
    LeafBoldTextSkips(before, outer, after);
  }

  // ---------------------------------------------------------------------
  // Source classification

  predicate IsReelsHeading(h: Node) {
    Lower(Trim(TextContent(h))) == "reels"
  }

  predicate IsSponsoredLabel(span: Node) {
    MatchesExact(Some(ExtractVisibleText(span)), SponsoredTexts)
  }

  predicate IsPeopleLabel(span: Node, v: Vocabulary) {
    MatchesAny(Some(Trim(TextContent(span))), v.peopleYouMayKnow)
  }

  predicate IsGroupLabel(span: Node, v: Vocabulary) {
    MatchesAny(Some(Trim(TextContent(span))), v.groupSuggestions)
  }

  predicate IsSuggestedLabel(span: Node) {
    MatchesExact(Some(Trim(TextContent(span))), SuggestedForYouTexts)
  }

  predicate IsFollowLabel(span: Node) {
    MatchesExact(Some(Trim(TextContent(span))), FollowButtonTexts)
  }

  /** The six marker tests of the cascade, each a test of one `h3` (for
      `reels`) or one `span` (for the others). */
  datatype Markers = Markers(
    reels: Node -> bool,
    sponsored: Node -> bool,
    people: Node -> bool,
    group: Node -> bool,
    suggested: Node -> bool,
    follow: Node -> bool)

  /** The two tests that depend on the vocabulary, as node tests. */
  function PeopleTest(v: Vocabulary): Node -> bool {
    (s: Node) => IsPeopleLabel(s, v)
  }

  function GroupTest(v: Vocabulary): Node -> bool {
    (s: Node) => IsGroupLabel(s, v)
  }

  /** The tests `detectPostSource` applies. */
  function ParserMarkers(v: Vocabulary): Markers {
    Markers(IsReelsHeading, IsSponsoredLabel, PeopleTest(v), GroupTest(v), IsSuggestedLabel, IsFollowLabel)
  }

  /** Some element of `xs` passes `test`. */
  predicate Marked(xs: seq<Node>, test: Node -> bool) {
    exists i :: 0 <= i < |xs| && test(xs[i])
  }

  /** The decision order of the cascade, given which markers are present. */
  function Cascade(reels: bool, sponsored: bool, people: bool, group: bool, suggested: bool, follow: bool): (r: Source)
    ensures r == Reels <==> reels
    ensures r == Sponsored <==> !reels && sponsored
    ensures r == PeopleSuggestion <==> !reels && !sponsored && people
    ensures r == GroupSuggestion <==> !reels && !sponsored && !people && group
    ensures r == Suggested <==> !reels && !sponsored && !people && !group && (suggested || follow)
    ensures r == Following <==> !reels && !sponsored && !people && !group && !suggested && !follow
  {
    if reels then Reels
    else if sponsored then Sponsored
    else if people then PeopleSuggestion
    else if group then GroupSuggestion
    else if suggested then Suggested
    else if follow then Suggested
    else Following
  }

  /** The cascade over the post's `h3` list `hs` and `span` list `ss`:
      each category is chosen exactly when its marker is present and no
      earlier marker is. */
  function Classify(hs: seq<Node>, ss: seq<Node>, m: Markers): (r: Source)
    ensures r == Reels <==> Marked(hs, m.reels)
    ensures r == Sponsored <==> !Marked(hs, m.reels) && Marked(ss, m.sponsored)
    ensures r == PeopleSuggestion <==>
      !Marked(hs, m.reels) && !Marked(ss, m.sponsored) && Marked(ss, m.people)
    ensures r == GroupSuggestion <==>
      !Marked(hs, m.reels) && !Marked(ss, m.sponsored) && !Marked(ss, m.people) && Marked(ss, m.group)
    ensures r == Suggested <==>
      !Marked(hs, m.reels) && !Marked(ss, m.sponsored) && !Marked(ss, m.people) && !Marked(ss, m.group)
      && (Marked(ss, m.suggested) || Marked(ss, m.follow))
    ensures r == Following <==>
      !Marked(hs, m.reels) && !Marked(ss, m.sponsored) && !Marked(ss, m.people) && !Marked(ss, m.group)
      && !Marked(ss, m.suggested) && !Marked(ss, m.follow)
  {
    Cascade(Any(hs, m.reels), Any(ss, m.sponsored), Any(ss, m.people), Any(ss, m.group),
            Any(ss, m.suggested), Any(ss, m.follow))
  }

  /** `detectPostSource`: the cascade over the post's `h3` and `span`
      descendants, in document order. */
  function DetectPostSource(post: Node, v: Vocabulary): (r: Source)
    ensures var hs := QuerySelectorAll(post, HeadingSelector);
      r == Reels <==> Marked(hs, IsReelsHeading)
    ensures var hs := QuerySelectorAll(post, HeadingSelector); var ss := QuerySelectorAll(post, SpanSelector);
      r == Sponsored <==> !Marked(hs, IsReelsHeading) && Marked(ss, IsSponsoredLabel)
    ensures var hs := QuerySelectorAll(post, HeadingSelector); var ss := QuerySelectorAll(post, SpanSelector);
      r == PeopleSuggestion <==> !Marked(hs, IsReelsHeading) && !Marked(ss, IsSponsoredLabel) && Marked(ss, PeopleTest(v))
    ensures var hs := QuerySelectorAll(post, HeadingSelector); var ss := QuerySelectorAll(post, SpanSelector);
      r == GroupSuggestion <==> (!Marked(hs, IsReelsHeading) && !Marked(ss, IsSponsoredLabel) && !Marked(ss, PeopleTest(v))
        && Marked(ss, GroupTest(v)))
    ensures var hs := QuerySelectorAll(post, HeadingSelector); var ss := QuerySelectorAll(post, SpanSelector);
      r == Suggested <==> (!Marked(hs, IsReelsHeading) && !Marked(ss, IsSponsoredLabel) && !Marked(ss, PeopleTest(v))
        && !Marked(ss, GroupTest(v)) && (Marked(ss, IsSuggestedLabel) || Marked(ss, IsFollowLabel)))
    ensures var hs := QuerySelectorAll(post, HeadingSelector); var ss := QuerySelectorAll(post, SpanSelector);
      r == Following <==> (!Marked(hs, IsReelsHeading) && !Marked(ss, IsSponsoredLabel) && !Marked(ss, PeopleTest(v))
        && !Marked(ss, GroupTest(v)) && !Marked(ss, IsSuggestedLabel) && !Marked(ss, IsFollowLabel))
  {
    Classify(QuerySelectorAll(post, HeadingSelector), QuerySelectorAll(post, SpanSelector), ParserMarkers(v))
  }

  /** Sponsored status wins over every suggestion marker. */
  lemma SponsoredBeatsSuggested(post: Node, v: Vocabulary, i: nat, j: nat)
    requires forall k :: 0 <= k < |QuerySelectorAll(post, HeadingSelector)| ==>
      !IsReelsHeading(QuerySelectorAll(post, HeadingSelector)[k])
    requires i < |QuerySelectorAll(post, SpanSelector)| && j < |QuerySelectorAll(post, SpanSelector)|
    requires IsSponsoredLabel(QuerySelectorAll(post, SpanSelector)[i])
    requires IsSuggestedLabel(QuerySelectorAll(post, SpanSelector)[j])
    ensures DetectPostSource(post, v) == Sponsored
  {
    var ss := QuerySelectorAll(post, SpanSelector);
    assert ParserMarkers(v).sponsored(ss[i]);
  }

  /** A "Reels" heading decides the category whatever else the post holds. */
  lemma ReelsHeadingWins(post: Node, v: Vocabulary, i: nat)
    requires i < |QuerySelectorAll(post, HeadingSelector)|
    requires Lower(Trim(TextContent(QuerySelectorAll(post, HeadingSelector)[i]))) == "reels"
    ensures DetectPostSource(post, v) == Reels
  {
    var hs := QuerySelectorAll(post, HeadingSelector);
    assert ParserMarkers(v).reels(hs[i]);
  }

  /** A post with no `h3` and no `span` descendants is an ordinary post. */
  lemma UnmarkedPostIsFollowing(post: Node, v: Vocabulary)
    requires QuerySelectorAll(post, HeadingSelector) == []
    requires QuerySelectorAll(post, SpanSelector) == []
    ensures DetectPostSource(post, v) == Following
  {
  }

  // ---------------------------------------------------------------------
  // Field extraction

  /** `el.src` / `el.href` read from the attribute, `''` when absent. */
  function UrlAttribute(el: Node, name: string): string {
    GetAttribute(el, name).GetOr("")
  }

  /** Non-blank text with no white space at either end. */
  predicate IsTrimmedName(s: string) {
    s != "" && !IsSpace(s[0]) && !IsSpace(s[|s| - 1])
  }

  /** A length the content field can have. */
  predicate HasContentLength(s: string) {
    MinContentLength < |s| <= MaxContentLength
  }

  /** The author candidate of one selector: the trimmed text of its first
      hit, when that is not blank. */
  function AuthorCandidate(post: Node, sel: Selector): (r: Option<string>)
    ensures r.Some? ==> IsTrimmedName(r.value)
    ensures r.None? <==> QuerySelector(post, sel).None? || Trim(TextContent(QuerySelector(post, sel).value)) == ""
    ensures r.Some? ==> r.value == Trim(TextContent(QuerySelector(post, sel).value))
  {
    match QuerySelector(post, sel)
    case None => None
    case Some(el) => var t := Trim(TextContent(el)); if t != "" then Some(t) else None
  }

  /** The content candidate of one selector: the trimmed text of its first
      hit, when longer than 20 characters, cut to 500. */
  function ContentCandidate(post: Node, sel: Selector): (r: Option<string>)
    ensures r.Some? ==> HasContentLength(r.value)
  {
    ContentOf(QuerySelector(post, sel))
  }

  /** The content candidate read from a selector's first hit. */
  function ContentOf(hit: Option<Node>): (r: Option<string>)
    ensures r.None? <==> hit.None? || |Trim(TextContent(hit.value))| <= MinContentLength
    ensures r.Some? ==> HasContentLength(r.value) && r.value <= Trim(TextContent(hit.value))
    ensures r.Some? && |Trim(TextContent(hit.value))| <= MaxContentLength ==> r.value == Trim(TextContent(hit.value))
    ensures r.Some? && |Trim(TextContent(hit.value))| > MaxContentLength ==> |r.value| == MaxContentLength
  {
    match hit
    case None => None
    case Some(el) =>
      var t := Trim(TextContent(el));
      if |t| > MinContentLength then Some(Take(t, MaxContentLength)) else None
  }

  predicate IsContentImage(img: Node) {
    var src := UrlAttribute(img, "src");
    src != "" && !Includes(src, "emoji") && !Includes(src, "static")
  }

  function ImageSource(img: Node): string {
    UrlAttribute(img, "src")
  }

  /** A best-effort count: a non-empty run of decimal digits. */
  predicate IsCount(s: string) {
    |s| > 0 && AllDigits(s)
  }

  function ReactionCount(el: Node): Option<string> {
    FirstDigitRun(UrlAttribute(el, "aria-label"))
  }

  /** The author candidates of `sels`, in order. */
  function AuthorCandidates(post: Node, sels: seq<Selector>): (r: seq<Option<string>>)
    ensures |r| == |sels| && forall i :: 0 <= i < |sels| ==> r[i] == AuthorCandidate(post, sels[i])
  {
    if |sels| == 0 then [] else [AuthorCandidate(post, sels[0])] + AuthorCandidates(post, sels[1..])
  }

  /** The content candidates of `sels`, in order. */
  function ContentCandidates(post: Node, sels: seq<Selector>): (r: seq<Option<string>>)
    ensures |r| == |sels| && forall i :: 0 <= i < |sels| ==> r[i] == ContentCandidate(post, sels[i])
  {
    if |sels| == 0 then [] else [ContentCandidate(post, sels[0])] + ContentCandidates(post, sels[1..])
  }

  /** The author loop: the trimmed text of the first selector hit that
      is not blank, trying the selectors `sels` in order. */
  function Author(post: Node, sels: seq<Selector>): (r: Option<string>)
    ensures r.None? <==> forall i :: 0 <= i < |sels| ==> AuthorCandidate(post, sels[i]).None?
    ensures r.Some? ==>
      exists i :: (0 <= i < |sels| && AuthorCandidate(post, sels[i]) == r
                   && forall j :: 0 <= j < i ==> AuthorCandidate(post, sels[j]).None?)
  {
    FirstPresent(AuthorCandidates(post, sels))
  }

  /** A found author is never blank and carries no outer white space. */
  lemma AuthorIsTrimmedName(post: Node, sels: seq<Selector>)
    ensures Author(post, sels).Some? ==> IsTrimmedName(Author(post, sels).value)
  {
    if Author(post, sels).Some? {
      var i :| 0 <= i < |sels| && AuthorCandidate(post, sels[i]) == Author(post, sels);
    }
  }

  /** The content loop: the first selector hit whose trimmed text is longer
      than 20 characters, cut to 500. */
  function Content(post: Node, sels: seq<Selector>): (r: Option<string>)
    ensures r.None? <==> forall i :: 0 <= i < |sels| ==> ContentCandidate(post, sels[i]).None?
    ensures r.Some? ==>
      exists i :: (0 <= i < |sels| && ContentCandidate(post, sels[i]) == r
                   && forall j :: 0 <= j < i ==> ContentCandidate(post, sels[j]).None?)
  {
    FirstPresent(ContentCandidates(post, sels))
  }

  /** Found content is longer than 20 characters and at most 500. */
  lemma ContentHasBoundedLength(post: Node, sels: seq<Selector>)
    ensures Content(post, sels).Some? ==> HasContentLength(Content(post, sels).value)
  {
    if Content(post, sels).Some? {
      var i :| 0 <= i < |sels| && ContentCandidate(post, sels[i]) == Content(post, sels);
    }
  }

  /** The `href` of the link `link` found by the post-link selector, `null`
      when there is none or it is empty (`postLinkEl?.href || null`). */
  function PostLink(link: Option<Node>): (r: Option<string>)
    ensures r.Some? <==> link.Some? && UrlAttribute(link.value, "href") != ""
    ensures r.Some? ==> GetAttribute(link.value, "href") == r
  {
    match link
    case None => None
    case Some(el) => var h := UrlAttribute(el, "href"); if h == "" then None else Some(h)
  }

  /** The sources of the first five content images among `imgs`. */
  function ContentImages(imgs: seq<Node>): (r: seq<string>)
    ensures |r| <= MaxImages
    ensures forall i :: 0 <= i < |r| ==> r[i] != "" && !Includes(r[i], "emoji") && !Includes(r[i], "static")
    ensures forall i :: 0 <= i < |r| ==> exists j :: 0 <= j < |imgs| && ImageSource(imgs[j]) == r[i]
    ensures |Filter(imgs, IsContentImage)| <= MaxImages ==> |r| == |Filter(imgs, IsContentImage)|
    ensures |Filter(imgs, IsContentImage)| > MaxImages ==> |r| == MaxImages
    ensures forall i :: 0 <= i < |r| ==> r[i] == ImageSource(Filter(imgs, IsContentImage)[i])
  {
    var candidates := Filter(imgs, IsContentImage);
    var srcs := MapSeq(candidates, ImageSource);
    assert forall i :: 0 <= i < |srcs| ==> candidates[i] in imgs;
    Take(srcs, MaxImages)
  }

  /** The number in the first of the reaction labels `els` that holds one,
      else `'0'`. */
  function ReactionTotal(els: seq<Node>): (r: string)
    ensures IsCount(r)
    ensures (forall i :: 0 <= i < |els| ==> ReactionCount(els[i]).None?) <==> r == "0" && forall i :: 0 <= i < |els| ==> ReactionCount(els[i]) != Some("0")
    ensures forall i :: 0 <= i < |els| && ReactionCount(els[i]).Some? && (forall j :: 0 <= j < i ==> ReactionCount(els[j]).None?) ==>
      r == ReactionCount(els[i]).value
  {
    FirstSome(els, ReactionCount).GetOr("0")
  }

  /** The number written before one of `units` in the text, else `'0'`. */
  function CountOf(text: string, units: seq<string>): (r: string)
    ensures IsCount(r)
    ensures r == "0" || exists i :: OccursAt(text, r, i)
    ensures CountBeforeUnit(text, units).None? ==> r == "0"
    ensures CountBeforeUnit(text, units).Some? ==> r == CountBeforeUnit(text, units).value
  {
    CountBeforeUnit(text, units).GetOr("0")
  }

  /** `parsePost`: first-hit selector loops for author and content, a
      bounded image list, counts defaulting to `'0'`, and the source. */
  function ParsePost(post: Node, v: Vocabulary): (r: ParsedPost)
    ensures r.author.Some? ==> IsTrimmedName(r.author.value)
    ensures r.content.Some? ==> HasContentLength(r.content.value)
    ensures r.postLink.Some? ==> r.postLink.value != ""
    ensures |r.images| <= MaxImages
    ensures forall i :: 0 <= i < |r.images| ==> r.images[i] != "" && !Includes(r.images[i], "emoji") && !Includes(r.images[i], "static")
    ensures IsCount(r.reactions.total) && r.reactions.like == "0" && r.reactions.love == "0"
    ensures IsCount(r.comments) && IsCount(r.shares)
    ensures r.source == DetectPostSource(post, v)
    ensures r.author == Author(post, AuthorSelectors) && r.content == Content(post, ContentSelectors)
    ensures r.postLink == PostLink(QuerySelector(post, PostLinkSelector))
    ensures r.images == ContentImages(QuerySelectorAll(post, ImageSelector))
    ensures r.reactions.total == ReactionTotal(QuerySelectorAll(post, ReactionSelector))
    ensures r.comments == CountOf(TextContent(post), CommentUnits) && r.shares == CountOf(TextContent(post), ShareUnits)
  {
    AuthorIsTrimmedName(post, AuthorSelectors);
    ContentHasBoundedLength(post, ContentSelectors);
    ParsedPost(
      Author(post, AuthorSelectors),
      Content(post, ContentSelectors),
      PostLink(QuerySelector(post, PostLinkSelector)),
      ContentImages(QuerySelectorAll(post, ImageSelector)),
      Reactions(ReactionTotal(QuerySelectorAll(post, ReactionSelector)), "0", "0"),
      CountOf(TextContent(post), CommentUnits),
      CountOf(TextContent(post), ShareUnits),
      DetectPostSource(post, v))
  }

  // ---------------------------------------------------------------------
  // Feed container and posts

  predicate IsAriaHidden(el: Node) {
    GetAttribute(el, "aria-hidden") == Some("true")
  }

  /** A child `DIV` that is not `aria-hidden` and has element children. */
  predicate IsFeedCandidate(c: Node) {
    c.Element? && c.tag == "DIV" && !IsAriaHidden(c) && |Children(c)| > 0
  }

  predicate IsFeedHeading(h: Node) {
    MatchesAny(Some(Trim(TextContent(h))), FeedHeaderTexts)
  }

  function CandidateIfFeed(c: Node): Option<Node> {
    if IsFeedCandidate(c) then Some(c) else None
  }

  /** The feed container announced by one `h3`: the first qualifying child
      of its parent, when its text is a feed header. */
  function ContainerNextTo(h: Located): (r: Option<Node>)
    ensures r.Some? ==> IsFeedHeading(h.node) && Parent(h).Some? && IsFeedCandidate(r.value) && r.value in Children(Parent(h).value)
    ensures r.Some? ==> var cs := Children(Parent(h).value);
      exists k :: 0 <= k < |cs| && cs[k] == r.value && forall j :: 0 <= j < k ==> !IsFeedCandidate(cs[j])
    ensures r.None? <==> (!IsFeedHeading(h.node) || Parent(h).None?
      || forall k :: 0 <= k < |Children(Parent(h).value)| ==> !IsFeedCandidate(Children(Parent(h).value)[k]))
  {
    if !IsFeedHeading(h.node) then None
    else
      match Parent(h)
      case None => None
      case Some(p) => FirstSome(Children(p), CandidateIfFeed)
  }

  /** The loop of `findFeedContainer` over the `h3` elements `hs`: the
      container next to the first heading that announces one. */
  function FirstFeedContainer(hs: seq<Located>): (r: Option<Node>)
    ensures r.Some? ==> IsFeedCandidate(r.value)
    ensures r.None? <==> forall i :: 0 <= i < |hs| ==> ContainerNextTo(hs[i]).None?
    ensures r.Some? ==>
      exists i :: 0 <= i < |hs| && ContainerNextTo(hs[i]) == r && forall j :: 0 <= j < i ==> ContainerNextTo(hs[j]).None?
  {
    FirstSome(hs, ContainerNextTo)
  }

  /** The container found sits next to a feed heading: it is a child of
      that heading's parent, and no earlier heading announces a container. */
  lemma FirstFeedContainerFollowsHeading(hs: seq<Located>)
    ensures var r := FirstFeedContainer(hs);
      r.Some? ==>
        exists i :: (0 <= i < |hs| && IsFeedHeading(hs[i].node) && Parent(hs[i]).Some?
                     && r.value in Children(Parent(hs[i]).value)
                     && forall j :: 0 <= j < i ==> ContainerNextTo(hs[j]).None?)
  {
    var r := FirstFeedContainer(hs);
    if r.Some? {
      var i :| 0 <= i < |hs| && ContainerNextTo(hs[i]) == r && forall j :: 0 <= j < i ==> ContainerNextTo(hs[j]).None?;
      assert IsFeedHeading(hs[i].node) && Parent(hs[i]).Some? && r.value in Children(Parent(hs[i]).value);
    }
  }

  /** `findFeedContainer` over the document rooted at `doc`. */
  function FindFeedContainer(doc: Node): (r: Option<Node>)
    ensures r.Some? ==> IsFeedCandidate(r.value)
    ensures var hs := DocumentSelectLocated(doc, HeadingSelector);
      r.None? <==> forall i :: 0 <= i < |hs| ==> ContainerNextTo(hs[i]).None?
    ensures var hs := DocumentSelectLocated(doc, HeadingSelector);
      r.Some? ==> exists i :: 0 <= i < |hs| && ContainerNextTo(hs[i]) == r && forall j :: 0 <= j < i ==> ContainerNextTo(hs[j]).None?
  {
    FirstFeedContainer(DocumentSelectLocated(doc, HeadingSelector))
  }

  predicate IsFeedPost(el: Node) {
    |TextContent(el)| > MinFeedPostLength && !IsAriaHidden(el)
  }

  predicate IsArticlePost(el: Node) {
    |TextContent(el)| > MinArticleLength && !StartsWith(TextContent(el), NavigationMarker)
  }

  function DocumentArticles(doc: Node): seq<Node> {
    NodesOf(DocumentSelectLocated(doc, ArticleSelector))
  }

  /** `r` is exactly the qualifying children of the feed container `c`, in
      order. */
  ghost predicate FeedTier(r: seq<Node>, c: Node) {
    && IsSubsequence(r, Children(c))
    && (forall i :: 0 <= i < |r| ==> IsFeedPost(r[i]))
    && (forall i :: 0 <= i < |Children(c)| && IsFeedPost(Children(c)[i]) ==> Children(c)[i] in r)
  }

  /** `r` is exactly the qualifying fallback articles among `articles`, in
      order. */
  ghost predicate ArticleTier(r: seq<Node>, articles: seq<Node>) {
    && IsSubsequence(r, articles)
    && (forall i :: 0 <= i < |r| ==> IsArticlePost(r[i]))
    && (forall i :: 0 <= i < |articles| && IsArticlePost(articles[i]) ==> articles[i] in r)
  }

  /** The two tiers of `getAllPosts`: the feed container's qualifying
      children, or, without a container, the qualifying `[role="article"]`
      elements. */
  function SelectPosts(container: Option<Node>, articles: seq<Node>): (r: seq<Node>)
    requires forall i :: 0 <= i < |articles| ==> articles[i].Element?
    ensures forall i :: 0 <= i < |r| ==> r[i].Element?
    ensures container.Some? ==> FeedTier(r, container.value)
    ensures container.None? ==> ArticleTier(r, articles)
  {
    match container
    case Some(c) => Filter(Children(c), IsFeedPost)
    case None => Filter(articles, IsArticlePost)
  }

  /** `getAllPosts` on the document rooted at `doc`. */
  function GetAllPosts(doc: Node): (r: seq<ElementNode>)
    ensures FindFeedContainer(doc).Some? ==> FeedTier(r, FindFeedContainer(doc).value)
    ensures FindFeedContainer(doc).None? ==> ArticleTier(r, DocumentArticles(doc))
  {
    SelectPosts(FindFeedContainer(doc), DocumentArticles(doc))
  }
}
