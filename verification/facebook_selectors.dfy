/** The multilingual phrase lists and the two phrase matchers
    (`src/constants/facebook-selectors.constant.ts`). */
module FacebookSelectors {
  import opened Seqs
  import opened Text

  /** Heading texts that label the news feed, in twelve languages. */
  const FeedHeaderTexts: seq<string> := [
    "feed posts", "feeds",
    "bài viết", "bảng tin",
    "动态", "帖子",
    "動態", "貼文",
    "フィード", "投稿",
    "피드", "게시물",
    "publicaciones", "noticias",
    "publications", "fil d'actualité",
    "beiträge", "news feed",
    "publicações", "feed de notícias",
    "โพสต์", "ฟีด",
    "postingan", "beranda"
  ]

  /** Labels of the "Follow" button shown on suggested posts. */
  const FollowButtonTexts: seq<string> := [
    "follow", "theo dõi", "关注", "追蹤", "フォロー", "팔로우",
    "seguir", "suivre", "folgen", "seguir", "ติดตาม", "ikuti"
  ]

  /** Labels that mark a sponsored post. */
  const SponsoredTexts: seq<string> := [
    "sponsored",
    "được tài trợ",
    "赞助内容", "广告",
    "贊助", "廣告",
    "広告", "スポンサー",
    "광고", "스폰서",
    "publicidad", "patrocinado",
    "sponsorisé", "publicité",
    "gesponsert", "werbung",
    "patrocinado",
    "โฆษณา",
    "bersponsor"
  ]

  /** "Suggested for you" headers, including the group-suggestion headers. */
  const SuggestedForYouTexts: seq<string> := [
    "suggested for you", "your group suggestions",
    "gợi ý cho bạn", "đề xuất cho bạn", "gợi ý nhóm cho bạn",
    "为你推荐", "推荐给你", "你的群组推荐",
    "為你推薦", "推薦給你", "你的社團推薦",
    "おすすめ", "あなたへのおすすめ", "おすすめのグループ",
    "회원님을 위한 추천", "추천", "그룹 추천",
    "sugerido para ti", "sugerencias para ti", "sugerencias de grupos",
    "suggestions pour vous", "suggéré pour vous", "suggestions de groupes",
    "vorschläge für dich", "für dich vorgeschlagen", "gruppenvorschläge",
    "sugestão para você", "sugerido para você", "sugestões de grupos",
    "แนะนำสำหรับคุณ", "กลุ่มแนะนำของคุณ",
    "disarankan untuk anda", "saran untuk anda", "saran grup anda"
  ]

  /** JavaScript truthiness of a `string | null | undefined`. */
  predicate Truthy(text: Option<string>) {
    text.Some? && text.value != ""
  }

  /** The text as both matchers compare it: lower-cased, then trimmed. */
  function Normalize(text: string): string {
    Trim(Lower(text))
  }

  /** `matchesAny`: some pattern, lower-cased, occurs in the normalised text. */
  function MatchesAny(text: Option<string>, patterns: seq<string>): (r: bool)
    ensures r <==> Truthy(text) && exists i :: 0 <= i < |patterns| && exists k :: OccursAt(Normalize(text.value), Lower(patterns[i]), k)
  {
    if !Truthy(text) then false
    else
      var t := Normalize(text.value);
      SomeIncluded(t, patterns)
  }

  function SomeIncluded(t: string, patterns: seq<string>): (r: bool)
    ensures r <==> exists i :: 0 <= i < |patterns| && exists k :: OccursAt(t, Lower(patterns[i]), k)
  {
    if |patterns| == 0 then false
    else if Includes(t, Lower(patterns[0])) then true
    else
      var rest := SomeIncluded(t, patterns[1..]);
      assert forall i :: 1 <= i < |patterns| ==> patterns[1..][i - 1] == patterns[i];
      rest
  }

  /** `matchesExact`: the normalised text equals some lower-cased pattern.
      Patterns are not trimmed. */
  function MatchesExact(text: Option<string>, patterns: seq<string>): (r: bool)
    ensures r <==> Truthy(text) && exists i :: 0 <= i < |patterns| && Normalize(text.value) == Lower(patterns[i])
  {
    if !Truthy(text) then false
    else
      var t := Normalize(text.value);
      SomeEqual(t, patterns)
  }

  function SomeEqual(t: string, patterns: seq<string>): (r: bool)
    ensures r <==> exists i :: 0 <= i < |patterns| && t == Lower(patterns[i])
  {
    if |patterns| == 0 then false
    else if t == Lower(patterns[0]) then true
    else
      var rest := SomeEqual(t, patterns[1..]);
      assert forall i :: 1 <= i < |patterns| ==> patterns[1..][i - 1] == patterns[i];
      rest
  }

  // ---------------------------------------------------------------------
  // Properties of the matchers.

  /** `null`, `undefined` and `""` never match, whatever the patterns. */
  lemma FalsyNeverMatches(text: Option<string>, patterns: seq<string>)
    requires !Truthy(text)
    ensures !MatchesAny(text, patterns) && !MatchesExact(text, patterns)
  {
  }

  /** An exact match is also a substring match. */
  lemma ExactImpliesAny(text: Option<string>, patterns: seq<string>)
    requires MatchesExact(text, patterns)
    ensures MatchesAny(text, patterns)
  {
    var i :| 0 <= i < |patterns| && Normalize(text.value) == Lower(patterns[i]);
    assert OccursAt(Normalize(text.value), Lower(patterns[i]), 0);
  }

  /** No pattern, no match. */
  lemma EmptyPatternsNeverMatch(text: Option<string>)
    ensures !MatchesAny(text, []) && !MatchesExact(text, [])
  {
  }

  /** Adding patterns never turns a match into a non-match. */
  lemma MorePatternsKeepMatches(text: Option<string>, patterns: seq<string>, more: seq<string>)
    requires forall i :: 0 <= i < |patterns| ==> patterns[i] in more
    ensures MatchesAny(text, patterns) ==> MatchesAny(text, more)
    ensures MatchesExact(text, patterns) ==> MatchesExact(text, more)
  {
    if MatchesAny(text, patterns) {
      var i :| 0 <= i < |patterns| && exists k :: OccursAt(Normalize(text.value), Lower(patterns[i]), k);
      var j :| 0 <= j < |more| && more[j] == patterns[i];
    }
    if MatchesExact(text, patterns) {
      var i :| 0 <= i < |patterns| && Normalize(text.value) == Lower(patterns[i]);
      var j :| 0 <= j < |more| && more[j] == patterns[i];
    }
  }

  /** Changing the letter case of the text changes neither result. */
  lemma CaseInsensitive(a: string, b: string, patterns: seq<string>)
    requires Lower(a) == Lower(b)
    ensures MatchesAny(Some(a), patterns) == MatchesAny(Some(b), patterns)
    ensures MatchesExact(Some(a), patterns) == MatchesExact(Some(b), patterns)
  {
    assert |a| == |Lower(a)| == |Lower(b)| == |b|;
    if a != [] {
      SameNormalFormSameResult(Some(a), Some(b), patterns);
    }
  }

  /** The matchers look at the text only through its normal form. */
  lemma SameNormalFormSameResult(a: Option<string>, b: Option<string>, patterns: seq<string>)
    requires Truthy(a) && Truthy(b) && Normalize(a.value) == Normalize(b.value)
    ensures MatchesAny(a, patterns) == MatchesAny(b, patterns)
    ensures MatchesExact(a, patterns) == MatchesExact(b, patterns)
  {
  }

  /** Surrounding non-empty text with white space changes neither result. */
  lemma PaddingInsensitive(ws1: string, t: string, ws2: string, patterns: seq<string>)
    requires t != []
    requires AllSpace(ws1) && AllSpace(ws2)
    ensures MatchesAny(Some(ws1 + t + ws2), patterns) == MatchesAny(Some(t), patterns)
    ensures MatchesExact(Some(ws1 + t + ws2), patterns) == MatchesExact(Some(t), patterns)
  {
    calc {
      Lower(ws1 + t + ws2);
      { LowerConcat(ws1 + t, ws2); }
      Lower(ws1 + t) + Lower(ws2);
      { LowerConcat(ws1, t); }
      Lower(ws1) + Lower(t) + Lower(ws2);
      { LowerKeepsSpace(ws1); LowerKeepsSpace(ws2); }
      ws1 + Lower(t) + ws2;
    }
    TrimIgnoresPadding(ws1, Lower(t), ws2);
    SameNormalFormSameResult(Some(ws1 + t + ws2), Some(t), patterns);
  }

  /** Patterns are compared untrimmed: a pattern that starts with white
      space never equals the trimmed text. */
  lemma SpaceLedPatternsNeverMatchExactly(text: Option<string>, patterns: seq<string>)
    requires forall i :: 0 <= i < |patterns| ==> patterns[i] != [] && IsSpace(patterns[i][0])
    ensures !MatchesExact(text, patterns)
  {
  }
}
