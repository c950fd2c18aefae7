/** The feature rules (`src/content/features/`): a rule is enabled or not,
    tests the parsed post's source, and hides the post element with
    `display: none` when it fires. */
module Features {
  import opened Seqs
  import opened Dom
  import opened PostParser

  /** The rule classes, one per `*.feature.ts`. `SponsoredRule` exists but is
      not registered. */
  datatype Kind = SuggestedRule | ReelsRule | StoriesRule | PeopleRule | GroupRule | SponsoredRule

  /** The settings key of each rule. */
  function Key(k: Kind): string {
    match k
    case SuggestedRule => "removeSuggested"
    case ReelsRule => "removeReels"
    case StoriesRule => "removeStories"
    case PeopleRule => "removePeopleYouMayKnow"
    case GroupRule => "removeGroupSuggestions"
    case SponsoredRule => "removeSponsored"
  }

  /** The post source a rule acts on; the Stories rule acts on none. */
  function Target(k: Kind): Option<Source> {
    match k
    case SuggestedRule => Some(Suggested)
    case ReelsRule => Some(Reels)
    case StoriesRule => None
    case PeopleRule => Some(PeopleSuggestion)
    case GroupRule => Some(GroupSuggestion)
    case SponsoredRule => Some(Sponsored)
  }

  /** A rule instance: its class and its `enabled` flag. */
  datatype Feature = Feature(kind: Kind, enabled: bool)

  /** `new XFeature()`: the flag starts out false. */
  function NewFeature(k: Kind): (f: Feature)
    ensures f.kind == k && !IsEnabled(f)
  {
    Feature(k, false)
  }

  /** `setEnabled(b)`. */
  function SetEnabled(f: Feature, b: bool): (r: Feature)
    ensures r.kind == f.kind
    ensures IsEnabled(r) == b
  {
    f.(enabled := b)
  }

  /** `isEnabled()`. */
  predicate IsEnabled(f: Feature) {
    f.enabled
  }

  /** `shouldProcess(context)`. */
  predicate ShouldProcess(k: Kind, post: ParsedPost) {
    match k
    case SuggestedRule => post.source == Suggested
    case ReelsRule => post.source == Reels
    case StoriesRule => false
    case PeopleRule => post.source == PeopleSuggestion
    case GroupRule => post.source == GroupSuggestion
    case SponsoredRule => post.source == Sponsored
  }

  /** `process(context)` on the post element: every rule but Stories sets
      the inline `display` to `none`; the element stays in the tree. */
  function Process(k: Kind, el: Node): (r: Node)
    requires el.Element?
    ensures k == StoriesRule ==> r == el
    ensures k != StoriesRule ==> OnlyStyleChanged(el, r, {"display"}) && StyleValue(r, "display") == "none"
  {
    if k == StoriesRule then el else SetStyle(el, "display", "none")
  }

  /** The calls `execute` makes on the rule's own hooks. */
  datatype Call = ShouldProcessCall | ProcessCall

  /** What one `execute` call does: its return value, the post element
      afterwards, the hooks it called in order, and the rule afterwards. */
  datatype Execution = Execution(fired: bool, element: Node, calls: seq<Call>, feature: Feature)

  /** `execute(context)`: the template method. */
  function Execute(f: Feature, post: ParsedPost, el: Node): (x: Execution)
    requires el.Element?
    ensures x.feature == f
    ensures x.fired <==> IsEnabled(f) && ShouldProcess(f.kind, post)
    ensures !IsEnabled(f) ==> x.calls == [] && x.element == el
    ensures IsEnabled(f) && !ShouldProcess(f.kind, post) ==> x.calls == [ShouldProcessCall] && x.element == el
    ensures x.fired ==> x.calls == [ShouldProcessCall, ProcessCall] && x.element == Process(f.kind, el)
  {
    if !f.enabled then Execution(false, el, [], f)
    else if !ShouldProcess(f.kind, post) then Execution(false, el, [ShouldProcessCall], f)
    else Execution(true, Process(f.kind, el), [ShouldProcessCall, ProcessCall], f)
  }

  /** The number of `process` calls in a call list. */
  function ProcessCalls(calls: seq<Call>): nat {
    if |calls| == 0 then 0 else (if calls[0] == ProcessCall then 1 else 0) + ProcessCalls(calls[1..])
  }

  /** `process` runs exactly once when `execute` returns true, and never
      otherwise. */
  lemma ProcessRunsOnceIffFired(f: Feature, post: ParsedPost, el: Node)
    requires el.Element?
    ensures ProcessCalls(Execute(f, post, el).calls) == (if Execute(f, post, el).fired then 1 else 0)
  {
    var x := Execute(f, post, el);
    if x.fired {
      assert x.calls[1..] == [ProcessCall];
      assert x.calls[1..][1..] == [];
    } else if x.calls != [] {
      assert x.calls[1..] == [];
    }
  }

  /** `shouldProcess` holds exactly for posts of the rule's target source. */
  lemma ShouldProcessMeansTarget(k: Kind, post: ParsedPost)
    ensures ShouldProcess(k, post) <==> Target(k) == Some(post.source)
  {
  }

  /** The Stories rule never fires, enabled or not. */
  lemma StoriesNeverFires(f: Feature, post: ParsedPost, el: Node)
    requires el.Element? && f.kind == StoriesRule
    ensures !Execute(f, post, el).fired && Execute(f, post, el).element == el
  {
  }

  /** `createFeatures()`: the registered rules, in order. The sponsored
      rule is not among them. */
  function CreateFeatures(): (r: seq<Feature>)
    ensures |r| == 5
    ensures r[0].kind == SuggestedRule && r[1].kind == ReelsRule && r[2].kind == StoriesRule
    ensures r[3].kind == PeopleRule && r[4].kind == GroupRule
    ensures forall i :: 0 <= i < |r| ==> !IsEnabled(r[i]) && r[i].kind != SponsoredRule
  {
    [NewFeature(SuggestedRule), NewFeature(ReelsRule), NewFeature(StoriesRule),
     NewFeature(PeopleRule), NewFeature(GroupRule)]
  }

  /** The registered rules have pairwise distinct keys. */
  lemma RegisteredKeysDistinct(i: nat, j: nat)
    requires i < j < |CreateFeatures()|
    ensures Key(CreateFeatures()[i].kind) != Key(CreateFeatures()[j].kind)
  {
  }

  /** Distinct rule classes never both want the same post, so at most one
      rule can fire on a post whatever the flags. */
  lemma AtMostOneKindApplies(k1: Kind, k2: Kind, post: ParsedPost)
    requires k1 != k2
    ensures !(ShouldProcess(k1, post) && ShouldProcess(k2, post))
  {
  }

  /** No registered rule fires on a sponsored post, whatever the flags. */
  lemma SponsoredPostsAreNeverHidden(fs: seq<Feature>, post: ParsedPost, el: Node)
    requires el.Element? && post.source == Sponsored
    requires |fs| == |CreateFeatures()|
    requires forall i :: 0 <= i < |fs| ==> fs[i].kind == CreateFeatures()[i].kind
    ensures forall i :: 0 <= i < |fs| ==> !Execute(fs[i], post, el).fired
  {
  }
}
