# Clarity for Facebook: a Dafny model of the content filter

Clarity for Facebook is a browser extension. It hides suggested posts,
Reels, "People you may know" boxes and group suggestions in the Facebook
news feed. This project models the part of the extension that decides what
to hide:

- the phrase matchers and phrase lists;
- the post parser: visible-text extraction, the six-way source cascade,
  field extraction, and finding the feed and its posts;
- the feature rules and their template method, plus the registered rule
  list;
- the orchestrator: one pass over the posts, first-rule-wins dispatch, the
  processed set, `rescan`, the settings sync and the statistics;
- the mutation watcher and its single pending animation frame;
- the DOM-marking helpers: marker classes, inline hide/show, the bounded
  walk up the parents, and `containsText` / `matchesOrContains`.

Everything is pure: immutable datatypes and functions. The only methods are
`Helpers.FindClosestParent` (the loop of `findClosestParent`) and
`Helpers.FindClosestParentNoDepth`, a corollary of it. The page is an abstract tree:
`Dom.Node = Element(id, tag, attrs, classes, style, childNodes) | TextNode(data)`.

- `textContent` is the concatenation of the text nodes in document order.
- `querySelectorAll` is a preorder walk that keeps the descendants matching
  a selector. The selector is built from tag tests, attribute tests and
  descendant combinators, so the hand-written CSS strings of the code become
  data.
- An element's identity (the `WeakSet` key) is its `id`.

The files follow the program's structure:

| file | module | models |
|---|---|---|
| `seqs.dfy` | `Seqs` | `Option`, `some`, `filter`, first-hit loops, `slice(0, n)`, `map` |
| `text.dfy` | `Text` | `trim`, `toLowerCase`, `includes`, `startsWith`, the two count regexes |
| `dom.dfy` | `Dom` | nodes, `textContent`, selectors, `querySelector(All)`, `style` writes |
| `facebook_selectors.dfy` | `FacebookSelectors` | phrase lists, `matchesAny`, `matchesExact` |
| `post_parser.dfy` | `PostParser` | `PostParserService` |
| `features.dfy` | `Features` | `BaseFeature`, the six rule classes, `createFeatures` |
| `content_script.dfy` | `ContentScript` | `ClarityContentScript` |
| `observer.dfy` | `Observer` | `ObserverService` |
| `style_injector.dfy` | `StyleInjector` | `StyleInjectorService` |
| `helpers.dfy` | `Helpers` | the DOM helpers of `src/utils/helpers.ts` |

The model keeps the code's own quirks, and proves each of them:

- `createFeatures` does not register the sponsored rule, so a sponsored post
  is classified but never hidden (`ContentScript.SponsoredPostIsNeverHidden`).
- The group-suggestions rule reads the key `removeGroupSuggestions`. That
  key is not a field of `ExtensionSettings`, so the rule stays disabled
  (`ContentScript.GroupRuleStaysDisabled`).
- `cleanMode` is never read (`ContentScript.CleanModeIgnored`).
- The declared `PostSource` type has four values, but the parser returns
  six. `PostParser.Source` has all six.
- `stop` does not cancel an animation frame that was already requested. After
  `stop` and a new `start`, two frames can be pending, and both run the new
  callback (`Observer.RestartCanLeaveTwoFrames`).
- The 150 ms timer of `markAsHidden` is not cancelled by a later
  `markAsApproved`. It marks an approved element as removed
  (`StyleInjector.ApprovedYetMarkedRemoved`).
- `containsText` does not trim. Whatever `matchesAny` finds, it finds too,
  but not the other way round (`Helpers.MatchesAnyImpliesContainsText`,
  `Helpers.ContainsTextIsNotMatchesAny`).

The "people you may know" and group-suggestion phrase lists are imported by
the parser. Their definitions are not part of this model, so they are a
parameter: `PostParser.Vocabulary`.

## Model

| member | source | states |
|---|---|---|
| FacebookSelectors.MatchesAny | src/constants/facebook-selectors.constant.ts:170-174 | true iff the text is truthy and some lower-cased pattern occurs at some index of the lower-cased, trimmed text |
| FacebookSelectors.MatchesExact | src/constants/facebook-selectors.constant.ts:179-183 | true iff the text is truthy and its lower-cased, trimmed form equals some lower-cased (untrimmed) pattern |
| FacebookSelectors.FalsyNeverMatches | src/constants/facebook-selectors.constant.ts:170-183 | null, undefined and empty text match nothing under either matcher, whatever the patterns |
| FacebookSelectors.ExactImpliesAny | src/constants/facebook-selectors.constant.ts:170-183 | an exact match is also a substring match |
| FacebookSelectors.EmptyPatternsNeverMatch | src/constants/facebook-selectors.constant.ts:170-183 | with no patterns, neither matcher matches |
| FacebookSelectors.MorePatternsKeepMatches | src/constants/facebook-selectors.constant.ts:170-183 | adding patterns never turns a match into a non-match, for either matcher |
| FacebookSelectors.CaseInsensitive | src/constants/facebook-selectors.constant.ts:172-182 | texts that agree after case folding get the same result from both matchers |
| FacebookSelectors.SameNormalFormSameResult | src/constants/facebook-selectors.constant.ts:172-182 | both matchers depend on a truthy text only through its lower-cased, trimmed form |
| FacebookSelectors.PaddingInsensitive | src/constants/facebook-selectors.constant.ts:172-182 | white space added around non-empty text changes neither matcher's result |
| FacebookSelectors.SpaceLedPatternsNeverMatchExactly | src/constants/facebook-selectors.constant.ts:181-182 | patterns are not trimmed: a pattern that starts with white space never matches exactly |
| Text.TrimIsSlice | src/constants/facebook-selectors.constant.ts:172 | `trim` keeps a contiguous slice of the text, and everything it drops on either side is white space |
| Text.TrimIsOnlySuchSlice | src/constants/facebook-selectors.constant.ts:172 | conversely, any slice with only white space outside it and none at its two ends is what `trim` returns |
| Text.TrimIdempotent | src/constants/facebook-selectors.constant.ts:172 | trimming twice is trimming once |
| Text.TrimIgnoresPadding | src/constants/facebook-selectors.constant.ts:172 | `trim` ignores white space added at either end |
| Text.Includes | src/constants/facebook-selectors.constant.ts:173 | the left-to-right search is true iff the pattern occurs at some index |
| Text.FirstDigitRun | src/content/services/post-parser.service.ts:138 | no result iff the label has no digit; otherwise a non-empty run of digits that occurs in the label |
| Text.CountBeforeUnit | src/content/services/post-parser.service.ts:146 | a result is a non-empty run of digits that occurs in the text |
| Dom.MatchingAmongSound | src/content/services/post-parser.service.ts:15 | every element the selector query returns is a walked descendant that matches the selector |
| Dom.MatchingAmongComplete | src/content/services/post-parser.service.ts:15 | every walked descendant that matches the selector is returned |
| Dom.NotItsOwnAncestor | src/utils/helpers.ts:66-73 | no element reached by the tree walk is among its own ancestors, so a walk up the parents never meets the element itself |
| Dom.SetStyle | src/content/features/reels.feature.ts:22 | after assigning an inline style property, that property reads the assigned value, and nothing else about the element has changed |
| PostParser.VisibleText | src/content/services/post-parser.service.ts:14-35 | the result has no white space at either end; when there are `b` elements whose visible leaf text is non-blank, it is that text trimmed; otherwise (no `b` elements, or blank visible text) it is the trimmed fallback text |
| PostParser.ExtractVisibleText | src/content/services/post-parser.service.ts:14-35 | the same on an element: the trimmed visible text of its `b` descendants when there are some and it is non-blank, otherwise the element's trimmed `textContent` |
| PostParser.LeafBoldTextIsFilterMapJoin | src/content/services/post-parser.service.ts:17-26 | the concatenated bold text is exactly the filter, map and join the code writes |
| PostParser.LeafBoldTextSkips | src/content/services/post-parser.service.ts:18-24 | a `b` element that is nested-bold or style-hidden adds nothing to the visible text |
| PostParser.HiddenBoldIgnored | src/content/services/post-parser.service.ts:22-23 | a `b` whose style contains `display: none` or `display:none` does not change the extracted text |
| PostParser.NestingBoldIgnored | src/content/services/post-parser.service.ts:19-20 | a `b` that contains another `b` does not change the extracted text |
| PostParser.Cascade | src/content/services/post-parser.service.ts:37-84 | each source is returned exactly when its marker is present and no earlier marker is, in the order reels, sponsored, people, group, suggested-for-you or follow, following |
| PostParser.Classify | src/content/services/post-parser.service.ts:37-84 | the same precedence stated over the post's `h3` and `span` lists: a source is chosen iff some element passes its test and no element passes an earlier one |
| PostParser.DetectPostSource | src/content/services/post-parser.service.ts:37-84 | on a post, each source is returned exactly when some `h3` or `span` of the post carries its marker and none carries an earlier one; `following` iff no marker at all |
| PostParser.SponsoredBeatsSuggested | src/content/services/post-parser.service.ts:46-74 | without a Reels heading, a post with a sponsored label and a "suggested for you" label is sponsored |
| PostParser.ReelsHeadingWins | src/content/services/post-parser.service.ts:38-44 | an `h3` whose trimmed, lower-cased text is `reels` makes the post a Reels post, whatever else it contains |
| PostParser.UnmarkedPostIsFollowing | src/content/services/post-parser.service.ts:83 | a post with no `h3` and no `span` is classified `following` |
| PostParser.AuthorCandidate | src/content/services/post-parser.service.ts:99-103 | none iff the selector finds nothing or its hit's trimmed text is blank; otherwise exactly that trimmed text, which is non-blank with no white space at either end |
| PostParser.Author | src/content/services/post-parser.service.ts:98-105 | null iff no selector yields a candidate; otherwise the candidate of the first selector that yields one |
| PostParser.AuthorIsTrimmedName | src/content/services/post-parser.service.ts:101-102 | a found author is non-blank with no white space at either end |
| PostParser.ContentOf | src/content/services/post-parser.service.ts:112-116 | null iff there is no hit or its trimmed text is at most 20 long; otherwise the first characters of the trimmed text: all of it when it is at most 500 long, exactly 500 when longer |
| PostParser.ContentCandidate | src/content/services/post-parser.service.ts:112-116 | a selector's content candidate is longer than 20 and at most 500 |
| PostParser.Content | src/content/services/post-parser.service.ts:107-118 | null iff no selector yields a candidate; otherwise the candidate of the first selector that yields one |
| PostParser.ContentHasBoundedLength | src/content/services/post-parser.service.ts:114-115 | found content is longer than 20 and at most 500 |
| PostParser.PostLink | src/content/services/post-parser.service.ts:121-122 | non-null iff a link was found with a non-empty `href`, and then it is that `href` |
| PostParser.ContentImages | src/content/services/post-parser.service.ts:125-131 | the sources of the qualifying images (non-empty, free of `emoji` and `static`) in document order, cut to the first 5 |
| PostParser.ReactionTotal | src/content/services/post-parser.service.ts:134-143 | the number in the first label that holds one; it is `'0'`, with no label giving `0`, exactly when no label holds a number; always a digit string |
| PostParser.CountOf | src/content/services/post-parser.service.ts:146-151 | the digit run the count pattern captures when it matches, `'0'` when it does not; always a digit string |
| PostParser.ParsePost | src/content/services/post-parser.service.ts:86-166 | each field is its extractor's result: author and content from the first-hit selector loops, the link, the first 5 clean images, the first reaction number, the comment and share counts, and `detectPostSource`; `like`/`love` are `'0'`; hence the author is trimmed, content is 21 to 500 long, and counts are digit strings |
| PostParser.ContainerNextTo | src/content/services/post-parser.service.ts:174-189 | for a heading with feed-header text and a parent: the first child of that parent that is a `DIV`, not aria-hidden, with element children; none iff the text is no feed header, there is no parent, or no child qualifies |
| PostParser.FirstFeedContainer | src/content/services/post-parser.service.ts:171-193 | the container announced by the first heading that announces one, and none iff no heading does |
| PostParser.FirstFeedContainerFollowsHeading | src/content/services/post-parser.service.ts:174-187 | the container found is a child of the parent of an `h3` with feed-header text, and no earlier `h3` announces a container |
| PostParser.FindFeedContainer | src/content/services/post-parser.service.ts:171-193 | on a document: a qualifying `DIV` next to the first `h3` of the document that announces one, or null iff none does |
| PostParser.SelectPosts | src/content/services/post-parser.service.ts:198-222 | with a container: exactly its children longer than 50 and not aria-hidden, in order; without: exactly the articles longer than 200 that do not start with `FacebookFacebook`, in order |
| PostParser.GetAllPosts | src/content/services/post-parser.service.ts:198-222 | on a document: the qualifying feed children when a feed container is found, otherwise the qualifying articles of the document, each tier in order and complete |
| Features.NewFeature | src/content/features/base.feature.ts:11 | a new rule is disabled |
| Features.SetEnabled | src/content/features/base.feature.ts:16-26 | after `setEnabled(b)`, `isEnabled()` is `b` and the rule class is unchanged |
| Features.Process | src/content/features/reels.feature.ts:17-25 | every rule but Stories sets the inline `display` to `none` and changes nothing else; Stories leaves the element as it is |
| Features.Execute | src/content/features/base.feature.ts:42-53 | returns true iff enabled and `shouldProcess` holds; disabled calls no hook; a false `shouldProcess` calls only that hook; otherwise both hooks, once, in order; the flag never changes |
| Features.ProcessRunsOnceIffFired | src/content/features/base.feature.ts:42-53 | `process` is called exactly once when `execute` returns true and never otherwise |
| Features.ShouldProcessMeansTarget | src/content/features/suggested.feature.ts:13-15 | a rule wants a post iff the post's source is the rule's target category |
| Features.StoriesNeverFires | src/content/features/stories.feature.ts:14-21 | the Stories rule never fires and never touches the element, enabled or not |
| Features.CreateFeatures | src/content/features/index.ts:15-21 | five rules, in the order Suggested, Reels, Stories, People, Group; all disabled; none sponsored |
| Features.RegisteredKeysDistinct | src/content/features/index.ts:15-21 | the registered rules have pairwise distinct settings keys |
| Features.AtMostOneKindApplies | src/content/features/index.ts:15-21 | two different rule classes never both want the same post |
| Features.SponsoredPostsAreNeverHidden | src/content/features/index.ts:15-21 | no registered rule fires on a sponsored post, whatever the flags |
| ContentScript.NewScript | src/content/contentScript.ts:37 | after `createFeatures` the orchestrator holds five disabled rules and has handled nothing |
| ContentScript.ExecuteFiresIffFires | src/content/features/base.feature.ts:42-53 | `execute` returns true exactly for an enabled rule that wants the post |
| ContentScript.RunFeatures | src/content/contentScript.ts:94-100 | no winner iff no rule fires (then all ran and the element is unchanged); otherwise the winner is the first firing rule, the earlier rules did not fire, and the element is what its `process` made of it |
| ContentScript.ProcessOne | src/content/contentScript.ts:69-100 | the post joins the processed set; an already handled post changes nothing; a new post becomes hidden iff some rule fires on it; no other post's record changes |
| ContentScript.ProcessOneFirstRuleWins | src/content/contentScript.ts:94-100 | a newly seen post is hidden by the first rule in list order that fires on it |
| ContentScript.IdsOf | src/content/contentScript.ts:69-75 | the processed-set entries a list of posts adds: exactly the ids of its posts |
| ContentScript.ProcessPosts | src/content/contentScript.ts:68-101 | after the loop every listed post is in the processed set and the rules are unchanged; records change only for listed posts that had not been handled before, and no record is dropped |
| ContentScript.NewPostsCount | src/content/contentScript.ts:66-76 | the new-post count is the number of distinct listed posts not handled before |
| ContentScript.HandledPostsAreSkipped | src/content/contentScript.ts:69-72 | a pass over posts that were all handled before changes nothing and counts nothing |
| ContentScript.SecondPassIsIdle | src/content/contentScript.ts:70-75 | a second pass over the same posts handles nothing |
| ContentScript.FiringPostIsHidden | src/content/contentScript.ts:68-100 | a post listed for the first time and not handled before ends up hidden iff it was hidden before or some rule fires on it, and it is recorded under the first rule that fires |
| ContentScript.PassHidesExactlyFiring | src/content/contentScript.ts:68-100 | the same for every post of the pass at once: firing is the only way a pass hides a new post |
| ContentScript.PassOver | src/content/contentScript.ts:64-106 | a pass with the parser: rules unchanged, every post processed, the count of distinct new posts, records changed only for new posts, and each new post hidden iff it was before or some rule fires on its parse |
| ContentScript.ProcessAllPosts | src/content/contentScript.ts:64-106 | a pass over what `getAllPosts` returns: all of it ends up processed, and the count is that of its distinct new posts |
| ContentScript.RescanOver | src/content/contentScript.ts:131-135 | after `rescan` the processed set is exactly the posts returned, and every one of them counts as new |
| ContentScript.Rescan | src/content/contentScript.ts:131-135 | the same for the posts `getAllPosts` returns on the page |
| ContentScript.SyncAll | src/content/contentScript.ts:112-115 | each rule's flag becomes the setting under its key (a missing key reads false), and the rule classes keep their order |
| ContentScript.SyncFeatureStates | src/content/contentScript.ts:111-116 | the same on the orchestrator, whose processed set and records are untouched |
| ContentScript.CleanModeIgnored | src/content/contentScript.ts:111-116 | the `cleanMode` setting has no effect on the rules |
| ContentScript.GroupRuleStaysDisabled | src/content/features/group-suggestions.feature.ts:9 | with settings that only carry `ExtensionSettings` fields, the group-suggestion rule is disabled after a sync |
| ContentScript.SyncKeepsRegisteredRules | src/content/contentScript.ts:111-116 | a sync keeps the registered rule list in place |
| ContentScript.SponsoredPostIsNeverHidden | src/content/features/index.ts:15-21 | with the registered rules, processing a sponsored post never hides it, whatever the flags |
| ContentScript.GroupSuggestionIsNeverHidden | src/content/features/group-suggestions.feature.ts:9-23 | with the registered rules synced from `ExtensionSettings`, processing a group suggestion never hides it |
| ContentScript.CountEnabled | src/content/contentScript.ts:124 | at most the number of rules; 0 iff none is enabled; the total iff all are |
| ContentScript.CountEnabledIsFilterLength | src/content/contentScript.ts:124 | the count equals the length of the enabled-rule filter |
| ContentScript.GetStats | src/content/contentScript.ts:121-126 | `totalPosts` is the number of posts `getAllPosts` finds; `featuresEnabled` is the length of the enabled-rule filter, so at most the rule count and 0 iff no rule is enabled |
| Observer.NodesSignal | src/content/services/observer.service.ts:28-36 | true iff some added node is an element that is a `DIV` or matches or contains `[role="article"]` |
| Observer.BatchQualifies | src/content/services/observer.service.ts:27-38 | a batch qualifies iff some record has a signalling added node |
| Observer.NonElementsNeverQualify | src/content/services/observer.service.ts:29 | added nodes that are not elements never make a batch qualify |
| Observer.OnStart | src/content/services/observer.service.ts:15-64 | a no-op while observing; otherwise it stores the callback, attaches now or starts one poller, and leaves the frame state alone |
| Observer.OnBodyAppears | src/content/services/observer.service.ts:56-62 | pollers stop; the observer ends up attached iff it was already, or a poller was waiting and an observer exists |
| Observer.OnMutations | src/content/services/observer.service.ts:40-49 | a qualifying batch on an attached observer requests a frame iff none is requested; anything else changes nothing |
| Observer.OnFrame | src/content/services/observer.service.ts:44-47 | a pending frame lowers the flag and then runs the callback stored at that moment |
| Observer.OnStop | src/content/services/observer.service.ts:69-77 | no observer, no callback and no flag afterwards; pollers and pending frames are not cancelled |
| Observer.Step | src/content/services/observer.service.ts:15-77 | only an animation frame ever runs a callback |
| Observer.StepKeepsFlagBacked | src/content/services/observer.service.ts:40-48 | a raised flag always has a pending frame behind it |
| Observer.StepKeepsSingleFrame | src/content/services/observer.service.ts:40-48 | every event except `stop` keeps at most one frame pending, with the flag raised exactly when one is |
| Observer.RunKeepsSingleFrame | src/content/services/observer.service.ts:40-48 | a run of events without `stop` never has two frames pending |
| Observer.RestartCanLeaveTwoFrames | src/content/services/observer.service.ts:69-77 | start, mutate, stop, start again, mutate: two frames are pending, and both run the second callback |
| Observer.StartWhileObservingIsNoop | src/content/services/observer.service.ts:16-19 | `start` while observing changes nothing, in particular not the stored callback |
| Observer.StopIdempotent | src/content/services/observer.service.ts:69-77 | `stop` twice is `stop` once, and `start` works again afterwards |
| Observer.FrameAfterStopInvokesNothing | src/content/services/observer.service.ts:44-77 | a frame that runs after `stop` calls nothing, because the callback is gone |
| Observer.FrameReopensScheduling | src/content/services/observer.service.ts:44-46 | once a frame has run, the next qualifying batch requests a frame again |
| StyleInjector.MarkAsApproved | src/content/services/style-injector.service.ts:23-27 | `clarity-approved` present, `clarity-hidden` absent, `data-clarity-removed` removed, nothing else changed |
| StyleInjector.MarkAsHidden | src/content/services/style-injector.service.ts:32-34 | `clarity-hidden` present, `clarity-approved` absent, attributes and everything else unchanged |
| StyleInjector.RemovalTimerFires | src/content/services/style-injector.service.ts:37-39 | the timer sets `data-clarity-removed` to `true` and changes nothing else, the classes included |
| StyleInjector.MarksAreIdempotent | src/content/services/style-injector.service.ts:23-40 | each mark applied twice equals it applied once |
| StyleInjector.LastMarkWins | src/content/services/style-injector.service.ts:23-40 | after both marks the classes are those of the last one alone |
| StyleInjector.NeverBothMarkers | src/content/services/style-injector.service.ts:23-40 | after any sequence of marks and timer runs, the two marker classes are never both present and nothing but markers and the removal attribute has changed |
| StyleInjector.ApprovedYetMarkedRemoved | src/content/services/style-injector.service.ts:23-40 | hide, approve, then the timer: the element is approved and yet marked as removed |
| Helpers.ContainsText | src/utils/helpers.ts:46-49 | true iff some lower-cased text occurs in the lower-cased, untrimmed `textContent` |
| Helpers.ContainsNoText | src/utils/helpers.ts:46-49 | an empty list of texts gives false |
| Helpers.MatchesAnyImpliesContainsText | src/utils/helpers.ts:46-49 | whatever `matchesAny` finds in an element's text, `containsText` finds too |
| Helpers.ContainsTextIsNotMatchesAny | src/utils/helpers.ts:46-49 | the converse fails: an empty element contains the empty text, which `matchesAny` rejects |
| Helpers.MatchesOrContains | src/utils/helpers.ts:54-56 | true iff the element or one of its descendants matches the selector |
| Helpers.FindClosestParent | src/utils/helpers.ts:61-78 | a result is an ancestor within `maxDepth` steps that satisfies the condition, with no nearer one satisfying it; no result means no ancestor within that depth satisfies it |
| Helpers.FindClosestParentNoDepth | src/utils/helpers.ts:69 | a depth of 0 or less examines nothing and gives no result |
| Helpers.HideElement | src/utils/helpers.ts:83-91 | the element is hidden by the extension afterwards, the six properties take their hiding values, and nothing else changes |
| Helpers.ShowElement | src/utils/helpers.ts:96-104 | the element is no longer hidden by the extension, the six properties read `''`, and nothing else changes |
| Helpers.HideIdempotent | src/utils/helpers.ts:83-91 | hiding twice is hiding once |
| Helpers.ShowAfterHide | src/utils/helpers.ts:83-104 | showing forgets an earlier hide, and hiding forgets an earlier show |
| Helpers.ShowUndoesHide | src/utils/helpers.ts:83-104 | on an element with none of the six properties and no marker attribute, showing undoes hiding exactly |

## Left out

- Storage, messaging and the popup are I/O around the core: `src/utils/storage.ts`, `src/content/services/settings.service.ts`, `src/background/background.ts`, the popup components, and `init` with its message listener. A settings record is a parameter of `ContentScript.SyncFeatureStates` instead.
- Timers are not modelled as time: the 500 ms first scan, the 3 s periodic scan, the 10 ms body poll and `requestAnimationFrame`. The body poll is the event `BodyAppears`, seen by all waiting pollers at once. The frame is the event `FrameFires`. The `markAsHidden` timer is the mark `TimerFires`.
- Console logging is left out, and with it the rule names. The whole of `StyleInjectorService.init` and `updateHiddenTypes` is logging, so they change no state and have no member.
- `debounce`, `throttle`, `downloadJSON`, `formatDate` and `generateId` are not used by the filtering pipeline.
- `Text.Lower` folds ASCII letters only. JavaScript's `toLowerCase` folds all of Unicode, so text with non-ASCII capitals differs. All phrase lists are already lower case.
- Lengths and `slice(0, 500)` count characters of `seq<char>`, not UTF-16 code units. This matters for the 20, 50, 200 and 500 thresholds on text outside the Basic Multilingual Plane.
- Text.CountBeforeUnit: the regular expression is written out as a concrete search. The leftmost digit run is followed by white space and then a unit word, compared with ASCII case folding. This equals the regex only for unit words that begin with neither a digit nor white space, which holds for the four words used.
- Dom.SelectLocated: a query from an element does not look at ancestors above that element. The browser does, so a descendant selector such as `h4 a span`, queried from an element inside an `h4`, can match more in the browser than in the model.
- Dom.Node: the inline `style` attribute text, which `extractVisibleText` reads, and the CSS properties that scripts set are kept apart and not synchronised.
- `img.src` and `a.href` are read as raw attribute values, without resolving them against the page URL.
- CSS selectors are not parsed. Each selector string of the code is written out as a `Dom.Selector` value.
- Callbacks are opaque tokens (`nat`), and the `findClosestParent` condition is a total function on nodes.
- ContentScript.PassOver: the pass records which rule hid each post in `hiddenBy` rather than returning the changed page. The `display: none` write itself is `Features.Process`.
- Element identity is the `id` field. Garbage collection of `WeakSet` entries is not modelled.
- Helpers.FindClosestParent: the default `maxDepth` of 10 is not modelled; the depth is always an argument.
- Helpers.FindClosestParent: the element is given together with its ancestor chain (`Dom.Located`), in place of following `parentElement` links.
