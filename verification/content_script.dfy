/** The orchestrator (`ClarityContentScript` in `src/content/contentScript.ts`):
    one pass over the posts of the page, first-rule-wins dispatch, the set of
    post elements already handled, the settings sync and the statistics. */
module ContentScript {
  import opened Seqs
  import opened Dom
  import opened PostParser
  import opened Features

  /** The orchestrator's state: the registered rules, the ids of the post
      elements already handled (the `WeakSet`), and for each post element a
      rule has hidden, that rule. */
  datatype Script = Script(features: seq<Feature>, processed: set<nat>, hiddenBy: map<nat, Kind>)

  /** A freshly built orchestrator, as `init` leaves it before any settings
      arrive: the registered rules, all disabled, and nothing handled. */
  function NewScript(): (s: Script)
    ensures |s.features| == 5 && s.processed == {} && s.hiddenBy == map[]
    ensures forall i :: 0 <= i < |s.features| ==> !IsEnabled(s.features[i])
  {
    Script(CreateFeatures(), {}, map[])
  }

  /** `execute` returns true for this rule on this post. */
  predicate Fires(f: Feature, post: ParsedPost) {
    IsEnabled(f) && ShouldProcess(f.kind, post)
  }

  /** The `execute` result is exactly `Fires`. */
  lemma ExecuteFiresIffFires(f: Feature, post: ParsedPost, el: Node)
    requires el.Element?
    ensures Execute(f, post, el).fired <==> Fires(f, post)
  {
  }

  /** What the inner loop over the rules did to one post: the post element
      afterwards, how many rules it executed, and the rule that fired. */
  datatype Outcome = Outcome(element: Node, executed: nat, winner: Option<Kind>)

  /** The inner loop: execute the rules in order and stop at the first one
      that returns true. */
  function RunFeatures(fs: seq<Feature>, post: ParsedPost, el: Node): (o: Outcome)
    requires el.Element?
    ensures o.executed <= |fs|
    ensures o.winner.None? <==> forall j :: 0 <= j < |fs| ==> !Fires(fs[j], post)
    ensures o.winner.None? ==> o.executed == |fs| && o.element == el
    ensures o.winner.Some? ==>
      && 0 < o.executed
      && o.winner.value == fs[o.executed - 1].kind
      && Fires(fs[o.executed - 1], post)
      && o.element == Process(o.winner.value, el)
    ensures forall j :: 0 <= j < o.executed - 1 ==> !Fires(fs[j], post)
    decreases |fs|
  {
    if |fs| == 0 then Outcome(el, 0, None)
    else
      var x := Execute(fs[0], post, el);
      if x.fired then Outcome(x.element, 1, Some(fs[0].kind))
      else
        var rest := RunFeatures(fs[1..], post, x.element);
        assert forall j :: 1 <= j < |fs| ==> fs[1..][j - 1] == fs[j];
        Outcome(rest.element, rest.executed + 1, rest.winner)
  }

  /** The body of the outer loop for one post element. A post already in the
      processed set is skipped; otherwise it is added, parsed with `parse`,
      and handed to the rules. */
  function ProcessOne(s: Script, el: ElementNode, parse: Node -> ParsedPost): (r: Script)
    ensures r.features == s.features
    ensures r.processed == s.processed + {el.id}
    ensures el.id in s.processed ==> r == s
    ensures AgreeOutside(r.hiddenBy, s.hiddenBy, {el.id})
    ensures el.id !in s.processed ==>
      (el.id in r.hiddenBy <==> el.id in s.hiddenBy || exists i :: 0 <= i < |s.features| && Fires(s.features[i], parse(el)))
  {
    if el.id in s.processed then s
    else
      var o := RunFeatures(s.features, parse(el), el);
      var hidden := match o.winner
        case Some(k) => s.hiddenBy[el.id := k]
        case None => s.hiddenBy;
      Script(s.features, s.processed + {el.id}, hidden)
  }

  /** When a rule hides a newly seen post, it is the first rule in the list
      that fires on it. */
  lemma ProcessOneFirstRuleWins(s: Script, el: ElementNode, parse: Node -> ParsedPost, i: nat)
    requires el.id !in s.processed
    requires i < |s.features| && Fires(s.features[i], parse(el))
    requires forall j :: 0 <= j < i ==> !Fires(s.features[j], parse(el))
    ensures el.id in ProcessOne(s, el, parse).hiddenBy
    ensures ProcessOne(s, el, parse).hiddenBy[el.id] == s.features[i].kind
  {
    var o := RunFeatures(s.features, parse(el), el);
    assert o.winner.Some?;
    assert o.executed - 1 == i;
  }

  /** The two records agree on every post id outside `ids`. */
  ghost predicate AgreeOutside(a: map<nat, Kind>, b: map<nat, Kind>, ids: set<nat>) {
    forall k :: k !in ids ==> (k in a <==> k in b) && (k in a ==> a[k] == b[k])
  }

  /** The ids of the elements among `posts`. */
  function IdsOf(posts: seq<ElementNode>): (r: set<nat>)
    ensures forall i :: 0 <= i < |posts| ==> posts[i].id in r
    ensures forall id :: id in r ==> exists i :: 0 <= i < |posts| && posts[i].id == id
  {
    if |posts| == 0 then {} else {posts[0].id} + IdsOf(posts[1..])
  }

  /** The result of a pass: the state afterwards and `newPostsCount`. */
  datatype Pass = Pass(script: Script, newPosts: nat)

  /** The outer loop of `processAllPosts` over a given list of post elements. */
  function ProcessPosts(s: Script, posts: seq<ElementNode>, parse: Node -> ParsedPost): (p: Pass)
    ensures p.script.features == s.features
    ensures p.script.processed == s.processed + IdsOf(posts)
    ensures AgreeOutside(p.script.hiddenBy, s.hiddenBy, IdsOf(posts))
    ensures AgreeOutside(p.script.hiddenBy, s.hiddenBy, IdsOf(posts) - s.processed)
    ensures s.hiddenBy.Keys <= p.script.hiddenBy.Keys
    decreases |posts|
  {
    if |posts| == 0 then Pass(s, 0)
    else
      var s1 := ProcessOne(s, posts[0], parse);
      var rest := ProcessPosts(s1, posts[1..], parse);
      assert IdsOf(posts) == {posts[0].id} + IdsOf(posts[1..]);
      Pass(rest.script, rest.newPosts + (if posts[0].id in s.processed then 0 else 1))
  }

  /** The new-post count of a pass is the number of distinct post elements in
      the list that had not been handled before. */
  lemma {:induction false} NewPostsCount(s: Script, posts: seq<ElementNode>, parse: Node -> ParsedPost)
    ensures ProcessPosts(s, posts, parse).newPosts == |IdsOf(posts) - s.processed|
    decreases |posts|
  {
    if |posts| > 0 {
      var id := posts[0].id;
      var s1 := ProcessOne(s, posts[0], parse);
      assert s1.processed == s.processed + {id};
      NewPostsCount(s1, posts[1..], parse);
      assert IdsOf(posts) == {id} + IdsOf(posts[1..]);
      FreshIdsStep(id, IdsOf(posts[1..]), s.processed);
    }
  }

  /** How the set of not-yet-handled ids grows by one listed id. */
  lemma FreshIdsStep(id: nat, rest: set<nat>, done: set<nat>)
    ensures |({id} + rest) - done| == |rest - (done + {id})| + (if id in done then 0 else 1)
  {
    if id in done {
      assert ({id} + rest) - done == rest - (done + {id});
    } else {
      assert ({id} + rest) - done == {id} + (rest - (done + {id}));
    }
  }

  /** A pass over posts that were all handled before changes nothing and
      counts nothing. */
  lemma {:induction false} HandledPostsAreSkipped(s: Script, posts: seq<ElementNode>, parse: Node -> ParsedPost)
    requires IdsOf(posts) <= s.processed
    ensures ProcessPosts(s, posts, parse) == Pass(s, 0)
    decreases |posts|
  {
    if |posts| > 0 {
      assert IdsOf(posts) == {posts[0].id} + IdsOf(posts[1..]);
      HandledPostsAreSkipped(s, posts[1..], parse);
    }
  }

  /** Running the same pass twice: the second one handles nothing new. */
  lemma SecondPassIsIdle(s: Script, posts: seq<ElementNode>, parse: Node -> ParsedPost)
    ensures var first := ProcessPosts(s, posts, parse).script;
      ProcessPosts(first, posts, parse) == Pass(first, 0)
  {
    HandledPostsAreSkipped(ProcessPosts(s, posts, parse).script, posts, parse);
  }

  /** Some rule fires on the parsed post. */
  predicate SomeRuleFires(fs: seq<Feature>, post: ParsedPost) {
    exists k :: 0 <= k < |fs| && Fires(fs[k], post)
  }

  /** Rule `k` is the first rule of `fs` that fires on the parsed post. */
  predicate FirstFiring(fs: seq<Feature>, post: ParsedPost, k: nat) {
    k < |fs| && Fires(fs[k], post) && forall j :: 0 <= j < k ==> !Fires(fs[j], post)
  }

  /** A post seen for the first time in a pass ends up hidden exactly when
      it was hidden before or some rule fires on it, and a firing post is
      recorded under the first rule that fires. Firing is the only way a
      pass hides a post. */
  lemma {:induction false} FiringPostIsHidden(s: Script, posts: seq<ElementNode>, parse: Node -> ParsedPost, i: nat)
    requires i < |posts| && posts[i].id !in s.processed
    requires forall j :: 0 <= j < i ==> posts[j].id != posts[i].id
    ensures var h := ProcessPosts(s, posts, parse).script.hiddenBy;
      posts[i].id in h <==> posts[i].id in s.hiddenBy || SomeRuleFires(s.features, parse(posts[i]))
    ensures forall k: nat :: FirstFiring(s.features, parse(posts[i]), k) ==>
      var h := ProcessPosts(s, posts, parse).script.hiddenBy;
      posts[i].id in h && h[posts[i].id] == s.features[k].kind
    decreases |posts|
  {
    var s1 := ProcessOne(s, posts[0], parse);
    var h := ProcessPosts(s, posts, parse).script.hiddenBy;
    if i == 0 {
      var id := posts[0].id;
      var rest := ProcessPosts(s1, posts[1..], parse);
      assert rest.script == ProcessPosts(s, posts, parse).script;
      assert id in s1.processed;
      assert id !in IdsOf(posts[1..]) - s1.processed;
      forall k: nat | FirstFiring(s.features, parse(posts[0]), k)
        ensures id in h && h[id] == s.features[k].kind
      {
        ProcessOneFirstRuleWins(s, posts[0], parse, k);
      }
    } else {
      assert posts[1..][i - 1] == posts[i];
      assert forall j :: 0 <= j < i - 1 ==> posts[1..][j] == posts[j + 1];
      FiringPostIsHidden(s1, posts[1..], parse, i - 1);
    }
  }

  /** `FiringPostIsHidden` for every post listed in the pass. */
  lemma PassHidesExactlyFiring(s: Script, posts: seq<ElementNode>, parse: Node -> ParsedPost)
    ensures forall i :: 0 <= i < |posts| && posts[i].id !in s.processed && (forall j :: 0 <= j < i ==> posts[j].id != posts[i].id) ==>
      var h := ProcessPosts(s, posts, parse).script.hiddenBy;
      (posts[i].id in h <==> posts[i].id in s.hiddenBy || SomeRuleFires(s.features, parse(posts[i])))
  {
    forall i | 0 <= i < |posts| && posts[i].id !in s.processed && (forall j :: 0 <= j < i ==> posts[j].id != posts[i].id)
      ensures var h := ProcessPosts(s, posts, parse).script.hiddenBy;
        (posts[i].id in h <==> posts[i].id in s.hiddenBy || SomeRuleFires(s.features, parse(posts[i])))
    {
      FiringPostIsHidden(s, posts, parse, i);
    }
  }

  /** A pass over the given post elements, each parsed with the page's
      vocabulary. */
  function PassOver(s: Script, posts: seq<ElementNode>, v: Vocabulary): (p: Pass)
    ensures p.script.features == s.features
    ensures p.script.processed == s.processed + IdsOf(posts)
    ensures p.newPosts == |IdsOf(posts) - s.processed|
    ensures AgreeOutside(p.script.hiddenBy, s.hiddenBy, IdsOf(posts) - s.processed)
    ensures s.hiddenBy.Keys <= p.script.hiddenBy.Keys
    ensures forall i :: 0 <= i < |posts| && posts[i].id !in s.processed && (forall j :: 0 <= j < i ==> posts[j].id != posts[i].id) ==>
      (posts[i].id in p.script.hiddenBy <==> posts[i].id in s.hiddenBy || SomeRuleFires(s.features, ParsePost(posts[i], v)))
  {
    var parse := (n: Node) => ParsePost(n, v);
    NewPostsCount(s, posts, parse);
    PassHidesExactlyFiring(s, posts, parse);
    ProcessPosts(s, posts, parse)
  }

  /** `processAllPosts()`: a pass over the posts `getAllPosts` finds. */
  function ProcessAllPosts(s: Script, doc: Node, v: Vocabulary): (p: Pass)
    ensures p.script.processed == s.processed + IdsOf(GetAllPosts(doc))
    ensures p.newPosts == |IdsOf(GetAllPosts(doc)) - s.processed|
  {
    PassOver(s, GetAllPosts(doc), v)
  }

  /** The pass `rescan()` runs over the posts `getAllPosts` returns: every
      handled post is forgotten first, so every post is handled again. */
  function RescanOver(s: Script, posts: seq<ElementNode>, v: Vocabulary): (p: Pass)
    ensures p.script.features == s.features
    ensures p.script.processed == IdsOf(posts)
    ensures p.newPosts == |IdsOf(posts)|
  {
    var cleared := s.(processed := {});
    assert IdsOf(posts) - cleared.processed == IdsOf(posts);
    PassOver(cleared, posts, v)
  }

  /** `rescan()`. */
  function Rescan(s: Script, doc: Node, v: Vocabulary): (p: Pass)
    ensures p.script.processed == IdsOf(GetAllPosts(doc))
    ensures p.newPosts == |IdsOf(GetAllPosts(doc))|
  {
    RescanOver(s, GetAllPosts(doc), v)
  }

  /** `settings[key]`: a key the settings record lacks reads as `undefined`,
      which `setEnabled` stores as a false flag. */
  predicate Setting(settings: map<string, bool>, key: string) {
    key in settings && settings[key]
  }

  /** The boolean fields of `ExtensionSettings`. */
  const SettingsKeys: set<string> := {
    "cleanMode", "removeStories", "removeReels", "removeSponsored", "removeSuggested",
    "removeMarketplace", "removeSearchAds", "removeFollowSuggestions", "removePeopleYouMayKnow"
  }

  /** The loop of `syncFeatureStates` over the rules. */
  function SyncAll(fs: seq<Feature>, settings: map<string, bool>): (r: seq<Feature>)
    ensures |r| == |fs|
    ensures forall i :: 0 <= i < |fs| ==> r[i].kind == fs[i].kind && IsEnabled(r[i]) == Setting(settings, Key(fs[i].kind))
  {
    if |fs| == 0 then []
    else
      var rest := SyncAll(fs[1..], settings);
      assert forall i :: 1 <= i < |fs| ==> fs[1..][i - 1] == fs[i];
      [SetEnabled(fs[0], Setting(settings, Key(fs[0].kind)))] + rest
  }

  /** `syncFeatureStates(settings)`: each rule's flag becomes the setting
      under its key; nothing else changes. */
  function SyncFeatureStates(s: Script, settings: map<string, bool>): (r: Script)
    ensures |r.features| == |s.features|
    ensures forall i :: 0 <= i < |s.features| ==>
      r.features[i].kind == s.features[i].kind && IsEnabled(r.features[i]) == Setting(settings, Key(s.features[i].kind))
    ensures r.processed == s.processed && r.hiddenBy == s.hiddenBy
  {
    s.(features := SyncAll(s.features, settings))
  }

  /** The `cleanMode` setting has no effect on the rules. */
  lemma CleanModeIgnored(s: Script, settings: map<string, bool>, b: bool)
    ensures SyncFeatureStates(s, settings["cleanMode" := b]) == SyncFeatureStates(s, settings)
  {
    var r1 := SyncFeatureStates(s, settings["cleanMode" := b]);
    var r2 := SyncFeatureStates(s, settings);
    forall i | 0 <= i < |s.features| ensures r1.features[i] == r2.features[i] {
      assert Key(s.features[i].kind) != "cleanMode";
    }
  }

  /** Settings that only carry `ExtensionSettings` fields leave the group
      suggestions rule disabled: its key is not one of them. */
  lemma GroupRuleStaysDisabled(s: Script, settings: map<string, bool>)
    requires settings.Keys <= SettingsKeys
    ensures forall i :: 0 <= i < |s.features| && s.features[i].kind == GroupRule ==>
      !IsEnabled(SyncFeatureStates(s, settings).features[i])
  {
    assert Key(GroupRule) !in SettingsKeys;
  }

  /** The number of enabled rules among `fs`. */
  function CountEnabled(fs: seq<Feature>): (n: nat)
    ensures n <= |fs|
    ensures n == 0 <==> forall i :: 0 <= i < |fs| ==> !IsEnabled(fs[i])
    ensures n == |fs| <==> forall i :: 0 <= i < |fs| ==> IsEnabled(fs[i])
  {
    if |fs| == 0 then 0
    else
      var rest := CountEnabled(fs[1..]);
      assert forall i :: 1 <= i < |fs| ==> fs[1..][i - 1] == fs[i];
      (if IsEnabled(fs[0]) then 1 else 0) + rest
  }

  /** The count is the length of `features.filter((f) => f.isEnabled())`. */
  lemma {:induction false} CountEnabledIsFilterLength(fs: seq<Feature>)
    ensures CountEnabled(fs) == |Filter(fs, IsEnabled)|
    decreases |fs|
  {
    if |fs| > 0 {
      CountEnabledIsFilterLength(fs[1..]);
    }
  }

  /** The value `getStats()` returns. */
  datatype Stats = Stats(totalPosts: nat, featuresEnabled: nat)

  /** `getStats()`: the number of posts on the page and of enabled rules. */
  function GetStats(s: Script, doc: Node): (r: Stats)
    ensures r.totalPosts == |GetAllPosts(doc)|
    ensures r.featuresEnabled <= |s.features|
    ensures r.featuresEnabled == 0 <==> forall i :: 0 <= i < |s.features| ==> !IsEnabled(s.features[i])
    ensures r.featuresEnabled == |Filter(s.features, IsEnabled)|
  {
    CountEnabledIsFilterLength(s.features);
    Stats(|GetAllPosts(doc)|, CountEnabled(s.features))
  }

  /** The rules of a script built by `createFeatures`, in order. */
  predicate HasRegisteredRules(s: Script) {
    && |s.features| == |CreateFeatures()|
    && forall i :: 0 <= i < |s.features| ==> s.features[i].kind == CreateFeatures()[i].kind
  }

  /** Syncing settings keeps the registered rules registered. */
  lemma SyncKeepsRegisteredRules(s: Script, settings: map<string, bool>)
    requires HasRegisteredRules(s)
    ensures HasRegisteredRules(SyncFeatureStates(s, settings))
  {
  }

  /** With the registered rules, a sponsored post is never hidden, whatever
      the settings. */
  lemma SponsoredPostIsNeverHidden(s: Script, el: ElementNode, parse: Node -> ParsedPost)
    requires HasRegisteredRules(s) && parse(el).source == Sponsored
    ensures ProcessOne(s, el, parse).hiddenBy == s.hiddenBy
  {
    forall i | 0 <= i < |s.features| ensures !Fires(s.features[i], parse(el)) {
      assert s.features[i].kind == CreateFeatures()[i].kind;
    }
  }

  /** With the registered rules synced from `ExtensionSettings`, a group
      suggestion is never hidden. */
  lemma GroupSuggestionIsNeverHidden(s: Script, settings: map<string, bool>, el: ElementNode, parse: Node -> ParsedPost)
    requires HasRegisteredRules(s) && parse(el).source == GroupSuggestion
    requires settings.Keys <= SettingsKeys
    ensures var t := SyncFeatureStates(s, settings); ProcessOne(t, el, parse).hiddenBy == t.hiddenBy
  {
    var t := SyncFeatureStates(s, settings);
    GroupRuleStaysDisabled(s, settings);
    forall i | 0 <= i < |t.features| ensures !Fires(t.features[i], parse(el)) {
      assert t.features[i].kind == CreateFeatures()[i].kind;
    }
  }
}
